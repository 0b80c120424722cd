/** internal_format_t: a base format plus the modifier bits of the allocation. */
module InternalFormats {
  import opened Formats

  // Bits 16-31 hold the modifiers. AFRC reuses bits 19-23 that AFBC gives to block and header flags.
  const AFBC_BASIC: bv32 := 0x0001_0000
  const AFRC_BASIC: bv32 := 0x0002_0000
  const BLOCK_LINEAR_BASIC: bv32 := 0x0004_0000
  const AFBC_SPLIT: bv32 := 0x0008_0000
  const AFBC_WIDE: bv32 := 0x0010_0000
  const AFBC_TILED: bv32 := 0x0020_0000
  const AFBC_EXTRA_WIDE: bv32 := 0x0040_0000
  const AFBC_DOUBLE_BODY: bv32 := 0x0080_0000
  const AFBC_BCH: bv32 := 0x0100_0000
  const AFBC_YUV_TRANSFORM: bv32 := 0x0200_0000
  const AFBC_SPARSE: bv32 := 0x0400_0000
  const AFBC_USM: bv32 := 0x0800_0000
  const AFRC_ROT_LAYOUT: bv32 := 0x0008_0000
  const AFRC_LUMA_FIELD: bv32 := 0x0030_0000
  const AFRC_CHROMA_FIELD: bv32 := 0x00c0_0000
  // The two-bit size codes 1 and 2, shifted into their fields.
  const LUMA_24: bv32 := 0x0010_0000
  const LUMA_32: bv32 := 0x0020_0000
  const CHROMA_24: bv32 := 0x0040_0000
  const CHROMA_32: bv32 := 0x0080_0000

  /** The two-bit AFRC coding-size code; code 3 has no defined size. */
  datatype CodingSize = Bytes16 | Bytes24 | Bytes32 | InvalidSize {
    function Bytes(): nat {
      match this
      case Bytes16 => 16
      case Bytes24 => 24
      case Bytes32 => 32
      case InvalidSize => 40
    }
  }

  function CodingSizeOf(field: bv32, code24: bv32, code32: bv32): CodingSize {
    if field == 0 then Bytes16
    else if field == code24 then Bytes24
    else if field == code32 then Bytes32
    else InvalidSize
  }

  function FieldOf(size: CodingSize, code24: bv32, code32: bv32): bv32 {
    match size
    case Bytes16 => 0
    case Bytes24 => code24
    case Bytes32 => code32
    case InvalidSize => code24 | code32
  }

  datatype InternalFormat = InternalFormat(base: BaseFormat, mods: bv32) {
    predicate Get(flag: bv32) {
      mods & flag != 0
    }

    function Set(flag: bv32, value: bool): InternalFormat {
      InternalFormat(base, if value then mods | flag else mods & !flag)
    }

    predicate IsAfbc() { Get(AFBC_BASIC) }
    predicate IsAfrc() { Get(AFRC_BASIC) }
    predicate IsBlockLinear() { Get(BLOCK_LINEAR_BASIC) }

    function LumaSize(): CodingSize { CodingSizeOf(mods & AFRC_LUMA_FIELD, LUMA_24, LUMA_32) }
    function ChromaSize(): CodingSize { CodingSizeOf(mods & AFRC_CHROMA_FIELD, CHROMA_24, CHROMA_32) }

    function SetLumaSize(size: CodingSize): InternalFormat {
      InternalFormat(base, (mods & !AFRC_LUMA_FIELD) | FieldOf(size, LUMA_24, LUMA_32))
    }
    function SetChromaSize(size: CodingSize): InternalFormat {
      InternalFormat(base, (mods & !AFRC_CHROMA_FIELD) | FieldOf(size, CHROMA_24, CHROMA_32))
    }
  }

  const INVALID: InternalFormat := InternalFormat(UNDEFINED, 0)

  /** The AFRC size setters change their own field and nothing else, and the getters read it back. */
  lemma LumaSizeField(f: InternalFormat, size: CodingSize)
    ensures f.SetLumaSize(size).LumaSize() == size
    ensures f.SetLumaSize(size).ChromaSize() == f.ChromaSize()
  {
    match size {
      case Bytes16 =>
      case Bytes24 =>
      case Bytes32 =>
      case InvalidSize =>
    }
  }

  lemma ChromaSizeField(f: InternalFormat, size: CodingSize)
    ensures f.SetChromaSize(size).ChromaSize() == size
    ensures f.SetChromaSize(size).LumaSize() == f.LumaSize()
  {
    match size {
      case Bytes16 =>
      case Bytes24 =>
      case Bytes32 =>
      case InvalidSize =>
    }
  }

  lemma LumaSizeIsLocal(f: InternalFormat, size: CodingSize)
    ensures f.SetLumaSize(size).mods & !AFRC_LUMA_FIELD == f.mods & !AFRC_LUMA_FIELD
  {
    match size {
      case Bytes16 =>
      case Bytes24 =>
      case Bytes32 =>
      case InvalidSize =>
    }
  }

  lemma ChromaSizeIsLocal(f: InternalFormat, size: CodingSize)
    ensures f.SetChromaSize(size).mods & !AFRC_CHROMA_FIELD == f.mods & !AFRC_CHROMA_FIELD
  {
    match size {
      case Bytes16 =>
      case Bytes24 =>
      case Bytes32 =>
      case InvalidSize =>
    }
  }
}
