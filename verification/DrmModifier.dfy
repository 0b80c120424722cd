/** The DRM format modifier of an allocation, and a decoder that shows nothing is lost on the way. */
module DrmModifier {
  import opened Alignment
  import opened Usages
  import opened Formats
  import opened InternalFormats
  import opened ModifierFlags
  import opened AllocTypes
  import opened Layout
  import opened LinearLayout
  import opened AfbcLayout
  import opened AfbcHeaders
  import opened Derive
  import opened Layers
  import opened RkSelection

  // mali_fourcc.h; the vendor code in the top byte is the kernel's.
  const ARM: bv64 := 0x0800_0000_0000_0000
  const ARM_AFRC: bv64 := 0x0820_0000_0000_0000
  const TYPE_MASK: bv64 := 0xfff0_0000_0000_0000
  const GENERIC_16_16_TILE: bv64 := 0x0400_0000_0000_0002

  const MOD_BLOCK_SIZE_MASK: bv64 := 0xf
  const MOD_16X16: bv64 := 0x1
  const MOD_32X8: bv64 := 0x2
  const MOD_64X4: bv64 := 0x3
  const MOD_32X8_64X4: bv64 := 0x4
  const MOD_YTR: bv64 := 0x10
  const MOD_SPLIT: bv64 := 0x20
  const MOD_SPARSE: bv64 := 0x40
  const MOD_TILED: bv64 := 0x100
  const MOD_SC: bv64 := 0x200
  const MOD_DB: bv64 := 0x400
  const MOD_BCH: bv64 := 0x800
  const MOD_USM: bv64 := 0x1000
  const MOD_SCAN: bv64 := 0x100

  function Add(m: bv64, condition: bool, bits: bv64): bv64 {
    if condition then m | bits else m
  }

  // ----- AFBC -----

  function BlockSize(wide: bool, extraWide: bool, multiPlane: bool): bv64 {
    if wide then (if multiPlane then MOD_32X8_64X4 else MOD_32X8)
    else if extraWide then MOD_64X4
    else MOD_16X16
  }

  predicate SolidColor(f: FormatInfo) {
    !f.isYuv && f.bppAfbc.p0 <= 64
  }

  /** The tags other than the block size; solid colour goes with tiled headers where possible. */
  function FeatureBits(split: bool, tiled: bool, solidColor: bool, doubleBody: bool, hints: bool, transform: bool,
                       sparse: bool, usm: bool): bv64
  {
    var blocks := Add(0, split, MOD_SPLIT);
    var headers := Add(Add(blocks, tiled, MOD_TILED), tiled && solidColor, MOD_SC);
    var bodies := Add(Add(headers, doubleBody, MOD_DB), hints, MOD_BCH);
    Add(Add(Add(bodies, transform, MOD_YTR), sparse, MOD_SPARSE), usm, MOD_USM)
  }

  function Features(flags: set<Flag>, solidColor: bool): bv64 {
    FeatureBits(SplitBlock in flags, TiledHeaders in flags, solidColor, DoubleBody in flags, ContentHints in flags,
                YuvTransform in flags, Sparse in flags, Usm in flags)
  }

  /** DRM_FORMAT_MOD_ARM_AFBC of feature tags and a block size. */
  function ArmAfbc(features: bv64, size: bv64): bv64 {
    ARM | (features | size)
  }

  function AfbcTags(flags: set<Flag>, solidColor: bool, multiPlane: bool): bv64 {
    ArmAfbc(Features(flags, solidColor), BlockSize(WideBlock in flags, ExtraWideBlock in flags, multiPlane))
  }

  /** The feature tags, in the source's order. */
  method FeatureTags(flags: set<Flag>, solidColor: bool) returns (modifier: bv64)
    ensures modifier == Features(flags, solidColor)
  {
    modifier := 0;
    if SplitBlock in flags {
      modifier := modifier | MOD_SPLIT;
    }
    if TiledHeaders in flags {
      modifier := modifier | MOD_TILED;
      if solidColor {
        modifier := modifier | MOD_SC;
      }
    }
    if DoubleBody in flags {
      modifier := modifier | MOD_DB;
    }
    if ContentHints in flags {
      modifier := modifier | MOD_BCH;
    }
    if YuvTransform in flags {
      modifier := modifier | MOD_YTR;
    }
    if Sparse in flags {
      modifier := modifier | MOD_SPARSE;
    }
    if Usm in flags {
      modifier := modifier | MOD_USM;
    }
  }

  method AfbcModifierTags(fmt: InternalFormat, f: FormatInfo, multiPlane: bool) returns (modifier: bv64)
    ensures modifier == AfbcTags(FlagsOf(fmt), SolidColor(f), multiPlane)
  {
    hide FlagsOf, Features, Add, ArmAfbc;
    var features := FeatureTags(FlagsOf(fmt), SolidColor(f));
    var size := MOD_16X16;
    if WideBlock in FlagsOf(fmt) {
      size := if multiPlane then MOD_32X8_64X4 else MOD_32X8;
    } else if ExtraWideBlock in FlagsOf(fmt) {
      size := MOD_64X4;
    }
    assert size == BlockSize(WideBlock in FlagsOf(fmt), ExtraWideBlock in FlagsOf(fmt), multiPlane);
    modifier := ArmAfbc(features, size);
  }

  /** Reads a flag back from an AFBC modifier, by the bit numbers of the DRM interface and not by the names above. */
  predicate AfbcHas(m: bv64, g: Flag) {
    var size := m & 0xf;
    match g
    case BasicAfbc => m & 0xfff0_0000_0000_0000 == 0x0800_0000_0000_0000
    case YuvTransform => m & 0x10 != 0
    case SplitBlock => m & 0x20 != 0
    case Sparse => m & 0x40 != 0
    case TiledHeaders => m & 0x100 != 0
    case DoubleBody => m & 0x400 != 0
    case ContentHints => m & 0x800 != 0
    case Usm => m & 0x1000 != 0
    case WideBlock => size == 2 || size == 4
    case ExtraWideBlock => size == 3 || size == 4
    case _ => false
  }

  /** The combinations get_alloc_type and validate_format let through. */
  predicate BlockSizesAreClear(flags: set<Flag>, multiPlane: bool) {
    && (!multiPlane ==> !(WideBlock in flags && ExtraWideBlock in flags))
    && (multiPlane ==> ExtraWideBlock in flags)
  }

  lemma AfbcTagsDecode(flags: set<Flag>, solidColor: bool, multiPlane: bool, g: Flag)
    requires BasicAfbc in flags && BasicAfrc !in flags && BasicBlockLinear !in flags
    requires BlockSizesAreClear(flags, multiPlane)
    ensures AfbcHas(AfbcTags(flags, solidColor, multiPlane), g) <==> g in flags
  {
    var features := Features(flags, solidColor);
    var size := BlockSize(WideBlock in flags, ExtraWideBlock in flags, multiPlane);
    FeaturesAreClear(flags, solidColor);
    if g == WideBlock || g == ExtraWideBlock {
      hide Features;
      SizeDecodes(features, flags, multiPlane, g);
    } else {
      assert size <= MOD_BLOCK_SIZE_MASK;
      hide BlockSize, Features, BlockSizesAreClear;
      FeatureDecodes(flags, solidColor, size, g);
    }
  }

  /** The feature tags leave the block size and the type alone. */
  lemma FeaturesAreClear(flags: set<Flag>, solidColor: bool)
    ensures Features(flags, solidColor) & (MOD_BLOCK_SIZE_MASK | TYPE_MASK) == 0
  {
    hide FeatureBits;
    FeatureBitsAreClear(SplitBlock in flags, TiledHeaders in flags, solidColor, DoubleBody in flags,
                        ContentHints in flags, YuvTransform in flags, Sparse in flags, Usm in flags);
  }

  lemma FeatureBitsAreClear(split: bool, tiled: bool, solidColor: bool, doubleBody: bool, hints: bool,
                            transform: bool, sparse: bool, usm: bool)
    ensures FeatureBits(split, tiled, solidColor, doubleBody, hints, transform, sparse, usm)
          & (MOD_BLOCK_SIZE_MASK | TYPE_MASK) == 0
  {
    hide Add;
    AddIsClear(0, split, MOD_SPLIT);
    var blocks := Add(0, split, MOD_SPLIT);
    AddIsClear(blocks, tiled, MOD_TILED);
    AddIsClear(Add(blocks, tiled, MOD_TILED), tiled && solidColor, MOD_SC);
    var headers := Add(Add(blocks, tiled, MOD_TILED), tiled && solidColor, MOD_SC);
    AddIsClear(headers, doubleBody, MOD_DB);
    AddIsClear(Add(headers, doubleBody, MOD_DB), hints, MOD_BCH);
    var bodies := Add(Add(headers, doubleBody, MOD_DB), hints, MOD_BCH);
    AddIsClear(bodies, transform, MOD_YTR);
    AddIsClear(Add(bodies, transform, MOD_YTR), sparse, MOD_SPARSE);
    AddIsClear(Add(Add(bodies, transform, MOD_YTR), sparse, MOD_SPARSE), usm, MOD_USM);
  }

  lemma AddIsClear(m: bv64, condition: bool, bits: bv64)
    requires m & (MOD_BLOCK_SIZE_MASK | TYPE_MASK) == 0 && bits & (MOD_BLOCK_SIZE_MASK | TYPE_MASK) == 0
    ensures Add(m, condition, bits) & (MOD_BLOCK_SIZE_MASK | TYPE_MASK) == 0
  {
  }

  lemma SizeDecodes(features: bv64, flags: set<Flag>, multiPlane: bool, g: Flag)
    requires features & (MOD_BLOCK_SIZE_MASK | TYPE_MASK) == 0 && BlockSizesAreClear(flags, multiPlane)
    requires g == WideBlock || g == ExtraWideBlock
    ensures AfbcHas(ArmAfbc(features, BlockSize(WideBlock in flags, ExtraWideBlock in flags, multiPlane)), g)
       <==> g in flags
  {
  }

  /** Every feature has a bit of its own, outside the block size. */
  lemma FeatureBitsDecode(split: bool, tiled: bool, solidColor: bool, doubleBody: bool, hints: bool, transform: bool,
                          sparse: bool, usm: bool, size: bv64)
    requires size <= MOD_BLOCK_SIZE_MASK
    ensures var m := ArmAfbc(FeatureBits(split, tiled, solidColor, doubleBody, hints, transform, sparse, usm), size);
      && (AfbcHas(m, SplitBlock) <==> split) && (AfbcHas(m, TiledHeaders) <==> tiled)
      && (AfbcHas(m, DoubleBody) <==> doubleBody) && (AfbcHas(m, ContentHints) <==> hints)
  {
  }

  lemma ColorBitsDecode(split: bool, tiled: bool, solidColor: bool, doubleBody: bool, hints: bool, transform: bool,
                        sparse: bool, usm: bool, size: bv64)
    requires size <= MOD_BLOCK_SIZE_MASK
    ensures var m := ArmAfbc(FeatureBits(split, tiled, solidColor, doubleBody, hints, transform, sparse, usm), size);
      && (AfbcHas(m, YuvTransform) <==> transform) && (AfbcHas(m, Sparse) <==> sparse) && (AfbcHas(m, Usm) <==> usm)
      && AfbcHas(m, BasicAfbc) && !AfbcHas(m, BasicAfrc) && !AfbcHas(m, BasicBlockLinear)
  {
  }

  /** What has been said of each feature, said of any of them. */
  lemma EachFeature(m: bv64, flags: set<Flag>, g: Flag)
    requires g != WideBlock && g != ExtraWideBlock
    requires BasicAfbc in flags && BasicAfrc !in flags && BasicBlockLinear !in flags
    requires AfbcHas(m, SplitBlock) <==> SplitBlock in flags
    requires AfbcHas(m, TiledHeaders) <==> TiledHeaders in flags
    requires AfbcHas(m, DoubleBody) <==> DoubleBody in flags
    requires AfbcHas(m, ContentHints) <==> ContentHints in flags
    requires AfbcHas(m, YuvTransform) <==> YuvTransform in flags
    requires (AfbcHas(m, Sparse) <==> Sparse in flags) && (AfbcHas(m, Usm) <==> Usm in flags)
    requires AfbcHas(m, BasicAfbc) && !AfbcHas(m, BasicAfrc) && !AfbcHas(m, BasicBlockLinear)
    ensures AfbcHas(m, g) <==> g in flags
  {
    hide AfbcHas;
    match g {
      case BasicAfbc => case BasicAfrc => case BasicBlockLinear =>
      case SplitBlock => case TiledHeaders => case DoubleBody => case ContentHints => case YuvTransform =>
      case Sparse => case Usm =>
    }
  }

  lemma FeatureDecodes(flags: set<Flag>, solidColor: bool, size: bv64, g: Flag)
    requires size <= MOD_BLOCK_SIZE_MASK && g != WideBlock && g != ExtraWideBlock
    requires BasicAfbc in flags && BasicAfrc !in flags && BasicBlockLinear !in flags
    ensures AfbcHas(ArmAfbc(Features(flags, solidColor), size), g) <==> g in flags
  {
    FeatureBitsDecode(SplitBlock in flags, TiledHeaders in flags, solidColor, DoubleBody in flags,
                      ContentHints in flags, YuvTransform in flags, Sparse in flags, Usm in flags, size);
    ColorBitsDecode(SplitBlock in flags, TiledHeaders in flags, solidColor, DoubleBody in flags,
                    ContentHints in flags, YuvTransform in flags, Sparse in flags, Usm in flags, size);
    EachFeature(ArmAfbc(Features(flags, solidColor), size), flags, g);
  }

  // ----- AFRC -----

  datatype ColorModel = RgbModel | YuvModel

  /** The base formats of the fourcc table, and their colour model. */
  function FourccModel(id: BaseFormat): Option<ColorModel> {
    match id
    case RAW16 => Some(RgbModel)
    case RGBA_8888 => Some(RgbModel)
    case BGRA_8888 => Some(RgbModel)
    case RGB_565 => Some(RgbModel)
    case RGBX_8888 => Some(RgbModel)
    case RGB_888 => Some(RgbModel)
    case BGR_888 => Some(RgbModel)
    case RGBA_1010102 => Some(RgbModel)
    case RGBA_16161616 => Some(RgbModel)
    case RGBA_10101010 => Some(RgbModel)
    case YV12 => Some(YuvModel)
    case YU12 => Some(YuvModel)
    case NV12 => Some(YuvModel)
    case NV15 => Some(YuvModel)
    case NV30 => Some(YuvModel)
    case NV16 => Some(YuvModel)
    case NV24 => Some(YuvModel)
    case NV21 => Some(YuvModel)
    case Y0L2 => Some(YuvModel)
    case Y210 => Some(YuvModel)
    case P010 => Some(YuvModel)
    case P210 => Some(YuvModel)
    case Y410 => Some(YuvModel)
    case YUV444 => Some(YuvModel)
    case Q410 => Some(YuvModel)
    case Q401 => Some(YuvModel)
    case YUV422_8BIT => Some(YuvModel)
    case YUV420_8BIT_I => Some(YuvModel)
    case YUV420_10BIT_I => Some(YuvModel)
    case R8 => Some(RgbModel)
    case STENCIL_8 => Some(RgbModel)
    case DEPTH_16 => Some(RgbModel)
    case DEPTH_24 => Some(RgbModel)
    case DEPTH_24_STENCIL_8 => Some(RgbModel)
    case DEPTH_32F => Some(RgbModel)
    case DEPTH_32F_STENCIL_8 => Some(RgbModel)
    case _ => None
  }

  /** The code of a coding size in the first plane's field and in the other planes' field. */
  function FirstCode(size: CodingSize): bv64 {
    match size case Bytes16 => 0x1 case Bytes24 => 0x2 case Bytes32 => 0x3 case InvalidSize => 0x0
  }

  function OtherCode(size: CodingSize): bv64 {
    match size case Bytes16 => 0x10 case Bytes24 => 0x20 case Bytes32 => 0x30 case InvalidSize => 0x0
  }

  function AfrcTags(rotated: bool, luma: CodingSize, chroma: CodingSize, planar: bool): bv64 {
    var layout := Add(0, !rotated, MOD_SCAN);
    ARM_AFRC | (if planar then (layout | FirstCode(luma)) | OtherCode(chroma) else layout | FirstCode(luma))
  }

  method AfrcModifierTags(fmt: InternalFormat, model: Option<ColorModel>, multiPlane: bool) returns (modifier: bv64)
    ensures modifier == if model.None? then 0
      else AfrcTags(fmt.Get(AFRC_ROT_LAYOUT), fmt.LumaSize(), fmt.ChromaSize(), model == Some(YuvModel) && multiPlane)
  {
    hide FirstCode, OtherCode, InternalFormat.Get, InternalFormat.LumaSize, InternalFormat.ChromaSize;
    if model.None? {
      return 0;
    }
    modifier := 0;
    if !fmt.Get(AFRC_ROT_LAYOUT) {
      modifier := modifier | MOD_SCAN;
    }
    if model == Some(YuvModel) && multiPlane {
      modifier := modifier | FirstCode(fmt.LumaSize());
      modifier := modifier | OtherCode(fmt.ChromaSize());
    } else {
      modifier := modifier | FirstCode(fmt.LumaSize());
    }
    modifier := ARM_AFRC | modifier;
  }

  predicate AfrcIsRotated(m: bv64) {
    m & 0x100 == 0
  }

  function AfrcLuma(m: bv64): CodingSize {
    var code := m & 0xf;
    if code == 0x1 then Bytes16 else if code == 0x2 then Bytes24 else if code == 0x3 then Bytes32 else InvalidSize
  }

  function AfrcChroma(m: bv64): CodingSize {
    var code := m & 0xf0;
    if code == 0x10 then Bytes16 else if code == 0x20 then Bytes24 else if code == 0x30 then Bytes32 else InvalidSize
  }

  lemma AfrcTagsDecode(rotated: bool, luma: CodingSize, chroma: CodingSize, planar: bool)
    ensures var m := AfrcTags(rotated, luma, chroma, planar);
      && AfrcIsRotated(m) == rotated && AfrcLuma(m) == luma
      && (planar ==> AfrcChroma(m) == chroma)
      && m & TYPE_MASK == ARM_AFRC
  {
    match luma { case Bytes16 => case Bytes24 => case Bytes32 => case InvalidSize => }
    match chroma { case Bytes16 => case Bytes24 => case Bytes32 => case InvalidSize => }
  }

  // ----- the whole modifier -----

  datatype Class = LinearClass | AfbcClass | AfrcClass | BlockLinearClass | OtherClass

  function ClassOf(fmt: InternalFormat): Class {
    if fmt.IsAfbc() then AfbcClass
    else if fmt.IsAfrc() then AfrcClass
    else if fmt.IsBlockLinear() then BlockLinearClass
    else LinearClass
  }

  function Modifier(fmt: InternalFormat, f: FormatInfo, multiPlane: bool): bv64 {
    match ClassOf(fmt)
    case AfbcClass => AfbcTags(FlagsOf(fmt), SolidColor(f), multiPlane)
    case AfrcClass =>
      if FourccModel(fmt.base).None? then 0
      else AfrcTags(fmt.Get(AFRC_ROT_LAYOUT), fmt.LumaSize(), fmt.ChromaSize(),
                    FourccModel(fmt.base) == Some(YuvModel) && multiPlane)
    case BlockLinearClass => GENERIC_16_16_TILE
    case _ => 0
  }

  method DrmModifierFromHandle(fmt: InternalFormat, f: FormatInfo, multiPlane: bool) returns (modifier: bv64)
    ensures modifier == Modifier(fmt, f, multiPlane)
  {
    hide FlagsOf, AfbcTags, AfrcTags, FourccModel, InternalFormat.IsAfbc, InternalFormat.IsAfrc,
      InternalFormat.IsBlockLinear, InternalFormat.Get, InternalFormat.LumaSize, InternalFormat.ChromaSize;
    if fmt.IsAfbc() {
      modifier := AfbcModifierTags(fmt, f, multiPlane);
    } else if fmt.IsAfrc() {
      modifier := AfrcModifierTags(fmt, FourccModel(fmt.base), multiPlane);
    } else if fmt.IsBlockLinear() {
      modifier := GENERIC_16_16_TILE;
    } else {
      modifier := 0;
    }
  }

  /** Reads the class back. */
  function DecodedClass(m: bv64): Class {
    if m == 0 then LinearClass
    else if m == 0x0400_0000_0000_0002 then BlockLinearClass
    else if m & 0xfff0_0000_0000_0000 == 0x0800_0000_0000_0000 then AfbcClass
    else if m & 0xfff0_0000_0000_0000 == 0x0820_0000_0000_0000 then AfrcClass
    else OtherClass
  }

  lemma ClassesAreDistinct(m: bv64)
    ensures m & TYPE_MASK == ARM ==> DecodedClass(m) == AfbcClass
    ensures m & TYPE_MASK == ARM_AFRC ==> DecodedClass(m) == AfrcClass
    ensures DecodedClass(0) == LinearClass && DecodedClass(GENERIC_16_16_TILE) == BlockLinearClass
  {
  }

  /** At most one of the three class bits. */
  predicate OneClass(flags: set<Flag>) {
    && !(BasicAfbc in flags && (BasicAfrc in flags || BasicBlockLinear in flags))
    && !(BasicAfrc in flags && BasicBlockLinear in flags)
  }

  /** Accepted by get_alloc_type and validate_format. */
  predicate Accepted(fmt: InternalFormat, usage: bv64, height: nat) {
    && HasInfo(fmt.base) && AllocTypeOf(fmt, usage).Some?
    && ValidFormat(Info(fmt.base), AllocTypeOf(fmt, usage).value, height)
  }

  /** Validation is what keeps the block-size code unambiguous. */
  lemma AcceptedBlockSizes(fmt: InternalFormat, usage: bv64, height: nat)
    requires Accepted(fmt, usage, height) && fmt.IsAfbc()
    ensures BlockSizesAreClear(FlagsOf(fmt), Info(fmt.base).npln > 1)
  {
    RowShape(fmt.base);
    hide Info, Has, InternalFormat.Get, AfrcTypeOf;
    assert WideBlock in FlagsOf(fmt) <==> fmt.Get(AFBC_WIDE);
    assert ExtraWideBlock in FlagsOf(fmt) <==> fmt.Get(AFBC_EXTRA_WIDE);
  }

  const AFRC_RGB: set<BaseFormat> := {RGB_888, BGR_888, RGBA_8888, RGBA_10101010}
  const AFRC_PLANAR: set<BaseFormat> := {NV12, NV21, YU12, NV16, YUV444, Q410, Q401, P010, P210}

  lemma AfrcRows(id: BaseFormat)
    requires HasInfo(id)
    ensures Info(id).afrc ==> id == Y8 || id in AFRC_RGB || id in AFRC_PLANAR
    ensures Info(id).afrc && Info(id).npln > 1 ==> id in AFRC_PLANAR
  {
    match id {
      case RGB_565 => case RGB_888 => case BGR_888 => case RGBA_8888 => case BGRA_8888 => case RGBX_8888 =>
      case RGBA_1010102 => case RGBA_16161616 => case RGBA_10101010 => case Y8 => case Y16 =>
      case YUV420_8BIT_I => case NV12 => case NV21 => case YV12 => case YU12 => case YUV422_8BIT =>
      case NV16 => case NV24 => case YUV444 => case NV30 => case Q410 => case Q401 => case YUV420_10BIT_I =>
      case Y0L2 => case P010 => case NV15 => case Y210 => case P210 => case Y410 => case RAW16 => case RAW12 =>
      case RAW10 => case BLOB => case DEPTH_16 => case DEPTH_24 => case DEPTH_24_STENCIL_8 => case DEPTH_32F =>
      case DEPTH_32F_STENCIL_8 => case STENCIL_8 => case R8 =>
    }
  }

  /** Among the formats AFRC is accepted for, only Y8 is missing from the fourcc table; planar ones are YUV there. */
  lemma AfrcFourccs(id: BaseFormat)
    requires HasInfo(id) && Info(id).afrc
    ensures FourccModel(id).None? <==> id == Y8
    ensures Info(id).npln > 1 ==> FourccModel(id) == Some(YuvModel)
  {
    hide Info;
    AfrcRows(id);
  }

  lemma AcceptedAfrc(fmt: InternalFormat, usage: bv64, height: nat)
    requires Accepted(fmt, usage, height) && ClassOf(fmt) == AfrcClass
    ensures Info(fmt.base).afrc && fmt.LumaSize() != InvalidSize && fmt.ChromaSize() != InvalidSize
  {
    hide Info, HasInfo, AfbcTypeOf, InternalFormat.Get, InternalFormat.IsAfbc, InternalFormat.IsAfrc,
      InternalFormat.LumaSize, InternalFormat.ChromaSize, ClumpsDefined, Clump;
  }

  lemma AfbcModifierDecodes(flags: set<Flag>, solidColor: bool, multiPlane: bool)
    requires BasicAfbc in flags && OneClass(flags) && BlockSizesAreClear(flags, multiPlane)
    ensures var m := AfbcTags(flags, solidColor, multiPlane);
      && DecodedClass(m) == AfbcClass
      && forall g: Flag :: AfbcHas(m, g) <==> g in flags
  {
    var m := AfbcTags(flags, solidColor, multiPlane);
    hide AfbcTags;
    ClassesAreDistinct(m);
    AfbcTagsDecode(flags, solidColor, multiPlane, BasicAfbc);
    assert m & TYPE_MASK == ARM;
    hide AfbcHas, DecodedClass;
    forall g: Flag
      ensures AfbcHas(m, g) <==> g in flags
    {
      AfbcTagsDecode(flags, solidColor, multiPlane, g);
    }
  }

  lemma AfrcModifierDecodes(fmt: InternalFormat, f: FormatInfo)
    requires ClassOf(fmt) == AfrcClass && (FourccModel(fmt.base).None? <==> fmt.base == Y8)
    requires f.npln > 1 ==> FourccModel(fmt.base) == Some(YuvModel)
    ensures var m := Modifier(fmt, f, f.npln > 1);
      && (DecodedClass(m) == AfrcClass <==> fmt.base != Y8)
      && (fmt.base != Y8 ==>
            && AfrcIsRotated(m) == fmt.Get(AFRC_ROT_LAYOUT) && AfrcLuma(m) == fmt.LumaSize()
            && (f.npln > 1 ==> AfrcChroma(m) == fmt.ChromaSize()))
  {
    var m := Modifier(fmt, f, f.npln > 1);
    hide FourccModel, AfrcTags, AfrcIsRotated, AfrcLuma, AfrcChroma, DecodedClass, InternalFormat.Get,
      InternalFormat.LumaSize, InternalFormat.ChromaSize, ClassOf;
    ClassesAreDistinct(m);
    AfrcTagsDecode(fmt.Get(AFRC_ROT_LAYOUT), fmt.LumaSize(), fmt.ChromaSize(),
                   FourccModel(fmt.base) == Some(YuvModel) && f.npln > 1);
  }

  lemma ClassBits(fmt: InternalFormat)
    ensures fmt.IsAfbc() <==> BasicAfbc in FlagsOf(fmt)
  {
    assert fmt.IsAfbc() == Is(fmt, BasicAfbc);
  }

  /** What can be read back from the modifier when the handle's number of planes is that of the format. */
  lemma ModifierLosesNothing(fmt: InternalFormat, usage: bv64, height: nat)
    requires Accepted(fmt, usage, height) && OneClass(FlagsOf(fmt))
    ensures var f := Info(fmt.base);
      var m := Modifier(fmt, f, f.npln > 1);
      && (DecodedClass(m) == ClassOf(fmt) <==> !(ClassOf(fmt) == AfrcClass && fmt.base == Y8))
      && (ClassOf(fmt) == AfbcClass ==> forall g: Flag :: AfbcHas(m, g) <==> g in FlagsOf(fmt))
      && (ClassOf(fmt) == AfrcClass && fmt.base != Y8 ==>
            && AfrcIsRotated(m) == fmt.Get(AFRC_ROT_LAYOUT) && AfrcLuma(m) == fmt.LumaSize()
            && (f.npln > 1 ==> AfrcChroma(m) == fmt.ChromaSize()))
  {
    var f := Info(fmt.base);
    var m := Modifier(fmt, f, f.npln > 1);
    ClassesAreDistinct(m);
    hide Info, FlagsOf, FourccModel, AfbcTags, AfrcTags, AfbcHas, DecodedClass, AfrcIsRotated, AfrcLuma,
      AfrcChroma, OneClass, Accepted, SolidColor, InternalFormat.Get, InternalFormat.LumaSize,
      InternalFormat.ChromaSize, InternalFormat.IsAfbc, InternalFormat.IsAfrc, InternalFormat.IsBlockLinear;
    if ClassOf(fmt) == AfbcClass {
      AcceptedBlockSizes(fmt, usage, height);
      ClassBits(fmt);
      AfbcModifierDecodes(FlagsOf(fmt), SolidColor(f), f.npln > 1);
    } else if ClassOf(fmt) == AfrcClass {
      AcceptedAfrc(fmt, usage, height);
      AfrcFourccs(fmt.base);
      AfrcModifierDecodes(fmt, f);
    }
  }

  /** is_multi_plane tells the format's planes, unless the picture is empty. */
  lemma MultiPlaneExactlyWhen(q: Request, planes: seq<PlaneInfo>)
    requires Derivable(q) && Filled(q, planes)
    ensures IsMultiPlane(planes) <==> q.f.npln > 1 && q.width > 0
  {
    assert Shape(q.f);
    hide PlaneWidth, PictureW, PictureH, PlaneHeight, Sane, Computable, ByteStride, Start;
    if q.f.npln > 1 {
      if q.width > 0 {
        PictureCovered(q, 1);
        CeilDivPositive(q.width, SubW(q.f, 1));
        PictureIs(q);
      } else {
        EmptyPlanes(q, 1);
      }
    }
  }

  lemma PictureIs(q: Request)
    requires Shape(q.f) && q.f.npln > 1
    ensures SubW(q.f, 1) > 0 && PictureW(q, 1) == CeilDiv(q.width, SubW(q.f, 1))
  {
  }

  /** The modifier drm_modifier_from_handle gives a handle whose plane table is `planes`. */
  function HandleModifier(fmt: InternalFormat, planes: seq<PlaneInfo>): bv64
    requires HasInfo(fmt.base) && |planes| == 3
  {
    Modifier(fmt, Info(fmt.base), IsMultiPlane(planes))
  }

  /**
   * From request to modifier: the modifier of a freshly allocated handle tells its class, exactly unless it is AFRC for
   * Y8, which gets the modifier of a linear buffer. Every AFBC flag, with both block-size bits, and the AFRC layout and
   * the coding sizes that apply can be read back.
   */
  lemma HandleModifierLosesNothing(fmt: InternalFormat, usage: bv64, width: nat, height: nat, planes: seq<PlaneInfo>)
    requires DeriveOutcome(fmt, usage, width, height).Derived? && OneClass(FlagsOf(fmt)) && width > 0
    requires Computable(DeriveOutcome(fmt, usage, width, height).request)
    requires Filled(DeriveOutcome(fmt, usage, width, height).request, planes)
    ensures HasInfo(fmt.base)
    ensures var m := HandleModifier(fmt, planes);
      && (DecodedClass(m) == ClassOf(fmt) <==> !(ClassOf(fmt) == AfrcClass && fmt.base == Y8))
      && (ClassOf(fmt) == AfbcClass ==> forall g: Flag :: AfbcHas(m, g) <==> g in FlagsOf(fmt))
      && (ClassOf(fmt) == AfrcClass && fmt.base != Y8 ==>
            && AfrcIsRotated(m) == fmt.Get(AFRC_ROT_LAYOUT) && AfrcLuma(m) == fmt.LumaSize()
            && (Info(fmt.base).npln > 1 ==> AfrcChroma(m) == fmt.ChromaSize()))
  {
    hide Info, FlagsOf, Modifier, AfbcHas, DecodedClass, AfrcIsRotated, AfrcLuma, AfrcChroma, OneClass, ClassOf,
      AllocTypeOf, ValidFormat, Sane, Computable, AdjustmentOf, Filled, IsMultiPlane, AdjustedWidth, AdjustedHeight,
      InternalFormat.Get, InternalFormat.LumaSize, InternalFormat.ChromaSize;
    var q := DeriveOutcome(fmt, usage, width, height).request;
    DerivedIsSane(fmt, usage, width, height);
    AdjustmentCovers(AdjustmentOf(fmt, usage), width, height);
    MultiPlaneExactlyWhen(q, planes);
    ModifierLosesNothing(fmt, usage, height);
  }

  // ----- superblock shapes -----

  datatype BlockShape = BlockShape(width: nat, height: nat)

  /** The superblock a modifier's block-size code stands for in plane p; other codes stand for none. */
  function ShapeIn(m: bv64, p: nat): BlockShape {
    var code := m & 0xf;
    if code == 1 then BlockShape(16, 16)
    else if code == 2 || (code == 4 && p == 0) then BlockShape(32, 8)
    else if code == 3 || code == 4 then BlockShape(64, 4)
    else BlockShape(0, 0)
  }

  /**
   * From request to modifier: the block-size code of a fresh AFBC handle stands for exactly the superblocks each plane
   * is laid out in, and the solid-colour bit says that tiled RGB headers may hold a colour.
   */
  lemma ModifierNamesSuperblocks(fmt: InternalFormat, usage: bv64, width: nat, height: nat, planes: seq<PlaneInfo>,
                                 p: nat)
    requires DeriveOutcome(fmt, usage, width, height).Derived? && fmt.IsAfbc() && width > 0
    requires Computable(DeriveOutcome(fmt, usage, width, height).request)
    requires Filled(DeriveOutcome(fmt, usage, width, height).request, planes)
    requires p < DeriveOutcome(fmt, usage, width, height).request.f.npln
    ensures HasInfo(fmt.base)
    ensures var q, m := DeriveOutcome(fmt, usage, width, height).request, HandleModifier(fmt, planes);
      && ShapeIn(m, p) == BlockShape(SbWidth(q.at, p), SbHeight(q.at, p))
      && (m & 0x200 != 0 <==> q.at.tiled && !q.f.isYuv && q.f.bppAfbc.p0 <= 64)
  {
    hide Info, FlagsOf, Modifier, ShapeIn, AllocTypeOf, ValidFormat, Sane, Computable, AdjustmentOf, Filled,
      IsMultiPlane, AdjustedWidth, AdjustedHeight, InternalFormat.IsAfbc, SbWidth, SbHeight, LayoutUsageOf;
    var q := DeriveOutcome(fmt, usage, width, height).request;
    DerivedIsSane(fmt, usage, width, height);
    AdjustmentCovers(AdjustmentOf(fmt, usage), width, height);
    MultiPlaneExactlyWhen(q, planes);
    LaidOutShapes(fmt, usage, height, p);
  }

  lemma LaidOutShapes(fmt: InternalFormat, usage: bv64, height: nat, p: nat)
    requires Accepted(fmt, usage, height) && fmt.IsAfbc() && p < Info(fmt.base).npln
    ensures var f, at := Info(fmt.base), AllocTypeOf(fmt, usage).value;
      var m := Modifier(fmt, f, f.npln > 1);
      && ShapeIn(m, p) == BlockShape(SbWidth(at, p), SbHeight(at, p))
      && (m & 0x200 != 0 <==> at.tiled && !f.isYuv && f.bppAfbc.p0 <= 64)
  {
    AcceptedBlockSizes(fmt, usage, height);
    SchemeOfFlags(fmt, usage);
    hide Info, FlagsOf, AfbcTags, ShapeIn, AllocTypeOf, InternalFormat.IsAfbc, InternalFormat.Get, SbWidth, SbHeight;
    var f := Info(fmt.base);
    TagsOfShape(FlagsOf(fmt), SolidColor(f), f.npln > 1, p);
    ShapesOfScheme(AllocTypeOf(fmt, usage).value, p);
  }

  /** The flags the layout's scheme comes from. */
  lemma SchemeOfFlags(fmt: InternalFormat, usage: bv64)
    requires HasInfo(fmt.base) && AllocTypeOf(fmt, usage).Some? && fmt.IsAfbc()
    ensures var at, flags := AllocTypeOf(fmt, usage).value, FlagsOf(fmt);
      && at.tiled == (TiledHeaders in flags) && (at.multiPlane ==> ExtraWideBlock in flags)
      && at.scheme == (if WideBlock in flags then AfbcWide else if ExtraWideBlock in flags then AfbcExtraWide
                       else AfbcBasic)
  {
    hide Info, Has, InternalFormat.Get, InternalFormat.IsAfbc;
    assert WideBlock in FlagsOf(fmt) <==> Is(fmt, WideBlock);
    assert ExtraWideBlock in FlagsOf(fmt) <==> Is(fmt, ExtraWideBlock);
    assert TiledHeaders in FlagsOf(fmt) <==> Is(fmt, TiledHeaders);
  }

  lemma ShapesOfScheme(at: AllocType, p: nat)
    ensures at.scheme == AfbcBasic && !at.multiPlane ==> SbWidth(at, p) == 16 && SbHeight(at, p) == 16
    ensures at.scheme == AfbcWide && (p == 0 || !at.multiPlane) ==> SbWidth(at, p) == 32 && SbHeight(at, p) == 8
    ensures at.scheme == AfbcExtraWide || (at.IsAfbc() && p > 0 && at.multiPlane) ==>
      SbWidth(at, p) == 64 && SbHeight(at, p) == 4
  {
  }

  lemma TagsOfShape(flags: set<Flag>, solidColor: bool, multiPlane: bool, p: nat)
    requires BlockSizesAreClear(flags, multiPlane)
    ensures var m := AfbcTags(flags, solidColor, multiPlane);
      && ShapeIn(m, p) == (if WideBlock in flags && (p == 0 || !multiPlane) then BlockShape(32, 8)
                           else if WideBlock in flags || ExtraWideBlock in flags then BlockShape(64, 4)
                           else BlockShape(16, 16))
      && (m & 0x200 != 0 <==> TiledHeaders in flags && solidColor)
  {
    var features := Features(flags, solidColor);
    var size := BlockSize(WideBlock in flags, ExtraWideBlock in flags, multiPlane);
    FeaturesAreClear(flags, solidColor);
    SolidColorBit(SplitBlock in flags, TiledHeaders in flags, solidColor, DoubleBody in flags, ContentHints in flags,
                  YuvTransform in flags, Sparse in flags, Usm in flags);
    hide FeatureBits;
    assert features & 0x200 != 0 <==> TiledHeaders in flags && solidColor;
    hide Features, ArmAfbc;
    SizeCode(features, size);
  }

  lemma SizeCode(features: bv64, size: bv64)
    requires features & (MOD_BLOCK_SIZE_MASK | TYPE_MASK) == 0 && size <= 0xf
    ensures ArmAfbc(features, size) & 0xf == size && ArmAfbc(features, size) & 0x200 == features & 0x200
  {
  }

  lemma SolidColorBit(split: bool, tiled: bool, solidColor: bool, doubleBody: bool, hints: bool, transform: bool,
                      sparse: bool, usm: bool)
    ensures FeatureBits(split, tiled, solidColor, doubleBody, hints, transform, sparse, usm) & 0x200 != 0
       <==> tiled && solidColor
  {
  }

  /** An AFRC allocation of Y8 and a linear one have the same modifier. */
  lemma Y8LosesItsClass(fmt: InternalFormat, f: FormatInfo)
    requires fmt.base == Y8 && ClassOf(fmt) == AfrcClass
    ensures Modifier(fmt, f, false) == Modifier(InternalFormat(Y8, 0), f, false) == 0
  {
    hide InternalFormat.IsAfbc, InternalFormat.IsAfrc, InternalFormat.IsBlockLinear, AfrcTags, AfbcTags, FlagsOf;
    Plain(Y8);
  }

  lemma Plain(id: BaseFormat)
    ensures ClassOf(InternalFormat(id, 0)) == LinearClass
  {
  }

  const FORCED_Y8: HalFormat := Unmapped(Y8, AFRC_BASIC)

  /**
   * Such an allocation is only reached by forcing the format, as the IP table has no AFRC for Y8: a forced request with
   * the usage that rules AFBC out is allocated as AFRC, whatever its size, and its modifier says linear.
   */
  lemma ForcedY8IsAllocated(bufferSize: nat, fbSize: nat, width: nat, height: nat)
    ensures var usage := HW_TEXTURE | NO_AFBC;
      var fmt := RkFormat(FORCED_Y8, usage, bufferSize, fbSize, STOCK);
      var outcome := DeriveOutcome(fmt, usage, width, height);
      && outcome.Derived? && outcome.request.at.IsAfrc() && ClassOf(fmt) == AfrcClass
      && Modifier(fmt, Info(Y8), false) == Modifier(InternalFormat(Y8, 0), Info(Y8), false) == 0
    ensures forall k: Kind :: k in AllKinds(Support(Y8)) ==> k != Afrc
  {
    var usage := HW_TEXTURE | NO_AFBC;
    ForcedUsage();
    ForcedY8Type(usage);
    Y8IsNoVideo();
    hide Info, Has, HasCpu, AllocTypeOf, AdjustmentOf, StrideRequestOf, Modifier, ClassOf;
    var fmt := RkFormat(FORCED_Y8, usage, bufferSize, fbSize, STOCK);
    assert fmt == InternalFormat(Y8, AFRC_BASIC);
    Y8LosesItsClass(fmt, Info(Y8));
    assert DeriveOutcome(fmt, usage, width, height).Derived?;
  }

  /** Everything some IP can do with a format. */
  function AllKinds(s: IpSupport): set<Kind> {
    s.cpuWr + s.cpuRd + s.gpuWr + s.gpuRd + s.dpuWr + s.dpuRd + s.dpuAeuWr + s.vpuWr + s.vpuRd + s.camWr
  }

  lemma ForcedUsage()
    ensures var usage := HW_TEXTURE | NO_AFBC; !Has(usage, HW_FB) && PlainUsage(usage)
  {
  }

  lemma Y8IsNoVideo()
    ensures !RkVideo(Y8) && Info(Y8).id == Y8 && Info(Y8).afrc
  {
  }

  lemma ForcedY8Type(usage: bv64)
    ensures var fmt := InternalFormat(Y8, AFRC_BASIC);
      && ClassOf(fmt) == AfrcClass
      && AllocTypeOf(fmt, usage).Some? && AllocTypeOf(fmt, usage).value.IsAfrc()
  {
    ForcedY8Bits();
    hide InternalFormat.Get, InternalFormat.IsAfbc, InternalFormat.IsAfrc, InternalFormat.LumaSize,
      InternalFormat.ChromaSize, Clump;
  }

  lemma ForcedY8Bits()
    ensures var fmt := InternalFormat(Y8, AFRC_BASIC);
      fmt.IsAfrc() && !fmt.IsAfbc() && fmt.LumaSize() == Bytes16 && fmt.ChromaSize() == Bytes16
  {
  }
}
