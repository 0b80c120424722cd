/** Buffer usage words: the 64-bit flags of usages.h that the model reads. */
module Usages {
  const SW_READ_MASK: bv64 := 0xf
  const SW_WRITE_MASK: bv64 := 0xf0
  const HW_TEXTURE: bv64 := 0x100
  const HW_RENDER: bv64 := 0x200
  const HW_2D: bv64 := 0x400
  const HW_COMPOSER: bv64 := 0x800
  const HW_FB: bv64 := 0x1000
  const EXTERNAL_DISP: bv64 := 0x2000
  const PROTECTED: bv64 := 0x4000
  const CURSOR: bv64 := 0x8000
  const HW_VIDEO_ENCODER: bv64 := 0x1_0000
  const HW_CAMERA_WRITE: bv64 := 0x2_0000
  const HW_CAMERA_READ: bv64 := 0x4_0000
  const RENDERSCRIPT: bv64 := 0x10_0000
  const DECODER: bv64 := 0x40_0000
  const SENSOR_DIRECT_DATA: bv64 := 0x80_0000
  const GPU_DATA_BUFFER: bv64 := 0x100_0000
  const FRONTBUFFER: bv64 := 0x1_0000_0000

  const PRIVATE_MASK: bv64 := 0xffff_0000_f000_0000

  // Vendor flags. Several of them share a bit on purpose (see usages.h).
  const MALI_FRONTBUFFER: bv64 := 0x1000_0000
  const NO_AFBC: bv64 := 0x2000_0000
  const SPECIFY_STRIDE: bv64 := 0x4000_0000
  const AFRC_LUMA_SENTINEL: bv64 := 0x4000_0000
  const AFRC_LUMA_16: bv64 := 0x5000_0000
  const AFRC_LUMA_24: bv64 := 0x6000_0000
  const AFRC_LUMA_32: bv64 := 0x4000_0000
  const AFRC_LUMA_MASK: bv64 := 0x7000_0000
  const AFBC_PADDING: bv64 := 0x0020_0000_0000_0000
  const AFRC_CHROMA_16: bv64 := 0x0100_0000_0000_0000
  const AFRC_CHROMA_24: bv64 := 0x0080_0000_0000_0000
  const AFRC_CHROMA_MASK: bv64 := 0x0180_0000_0000_0000
  const STRIDE_ALIGN_16: bv64 := 0x0200_0000_0000_0000
  const STRIDE_ALIGN_128: bv64 := 0x0400_0000_0000_0000
  const STRIDE_ALIGN_256_ODD: bv64 := 0x0800_0000_0000_0000
  const STRIDE_ALIGN_64: bv64 := 0x1000_0000_0000_0000
  const STRIDE_ALIGN_MASK: bv64 := 0x1e00_0000_0000_0000
  const HEIGHT_ALIGN_8: bv64 := 0x8000_0000_0000_0000
  const HEIGHT_ALIGN_16: bv64 := 0x4000_0000_0000_0000
  const HEIGHT_ALIGN_MASK: bv64 := 0xc000_0000_0000_0000

  const STANDARD_USAGE: bv64 :=
    SW_READ_MASK | SW_WRITE_MASK | HW_TEXTURE | HW_RENDER | HW_2D | HW_COMPOSER | HW_FB | EXTERNAL_DISP |
    PROTECTED | CURSOR | HW_VIDEO_ENCODER | HW_CAMERA_WRITE | HW_CAMERA_READ | RENDERSCRIPT | DECODER |
    SENSOR_DIRECT_DATA | GPU_DATA_BUFFER | FRONTBUFFER
  /** Vendor usage: bits 48-60, 28-31, 62 and 63. */
  const VENDOR_USAGE: bv64 := 0xdfff_0000_f000_0000
  const UNIVERSAL_USAGES: bv64 := PROTECTED | SW_READ_MASK | SW_WRITE_MASK
  const ALL_STANDARD: bv64 := UNIVERSAL_USAGES | STANDARD_USAGE

  predicate Has(usage: bv64, flags: bv64) {
    usage & flags != 0
  }

  predicate HasCpu(usage: bv64) {
    Has(usage, SW_READ_MASK | SW_WRITE_MASK)
  }

  /** Any usage that is neither private, nor CPU, nor front-buffer counts as hardware usage. */
  predicate HasHardware(usage: bv64) {
    Has(usage, !(PRIVATE_MASK | SW_READ_MASK | SW_WRITE_MASK | FRONTBUFFER))
  }

  predicate IsFrontBuffer(usage: bv64) {
    Has(usage, FRONTBUFFER) || (Has(usage, MALI_FRONTBUFFER) && !Has(usage, AFRC_LUMA_SENTINEL))
  }

  predicate IsNoAfbc(usage: bv64) {
    Has(usage, NO_AFBC) && !Has(usage, AFRC_LUMA_SENTINEL)
  }

  /** The Rockchip stride-alignment request; `Conflicting` stands for two or more flags at once. */
  datatype StrideRequest = NoRequest | Align16 | Align64 | Align128 | OddTimes256 | Conflicting

  function StrideRequestOf(usage: bv64): StrideRequest {
    var flags := usage & STRIDE_ALIGN_MASK;
    if flags == 0 then NoRequest
    else if flags == STRIDE_ALIGN_16 then Align16
    else if flags == STRIDE_ALIGN_64 then Align64
    else if flags == STRIDE_ALIGN_128 then Align128
    else if flags == STRIDE_ALIGN_256_ODD then OddTimes256
    else Conflicting
  }

  /**
   * What the questions about a usage word come to, bit by bit. Every public bit but the CPU's eight and the
   * front-buffer one is hardware usage; the vendor's front-buffer and no-AFBC bits mean something else next to bit 30.
   */
  lemma UsageQuestions(usage: bv64)
    ensures HasCpu(usage) <==> usage & 0xff != 0
    ensures HasHardware(usage) <==> usage & 0x0000_fffe_0fff_ff00 != 0
    ensures IsFrontBuffer(usage) <==> usage & 0x1_0000_0000 != 0 || usage & 0x5000_0000 == 0x1000_0000
    ensures IsNoAfbc(usage) <==> usage & 0x6000_0000 == 0x2000_0000
  {
  }

  /** The four stride bits, 57 to 60: none, exactly one, or a conflict. */
  lemma StrideBits(usage: bv64)
    ensures var bits := usage & 0x1e00_0000_0000_0000;
      StrideRequestOf(usage) ==
      if bits == 0 then NoRequest
      else if bits == 0x0200_0000_0000_0000 then Align16
      else if bits == 0x0400_0000_0000_0000 then Align128
      else if bits == 0x0800_0000_0000_0000 then OddTimes256
      else if bits == 0x1000_0000_0000_0000 then Align64
      else Conflicting
  {
  }
}
