/** The depths of the format table, from the samples that make up a pixel. */
module FormatDepths {
  import opened Formats

  /** The bits of the samples of a group of pixels, for uncompressed formats of one plane. */
  function GroupBits(id: BaseFormat): nat {
    match id
    case RGB_565 => 5 + 6 + 5
    case RGB_888 => 3 * 8
    case BGR_888 => 3 * 8
    case RGBA_8888 => 4 * 8
    case BGRA_8888 => 4 * 8
    case RGBX_8888 => 3 * 8 + 8
    case RGBA_1010102 => 3 * 10 + 2
    case RGBA_16161616 => 4 * 16
    case RGBA_10101010 => 4 * 16
    case Y410 => 3 * 10 + 2
    case YUV422_8BIT => 2 * 8 + 2 * 8
    case Y210 => 2 * 16 + 2 * 16
    case Y0L2 => 4 * 10 + 2 * 10 + 4 * 1
    case Y16 => 16
    case RAW16 => 16
    case RAW12 => 12
    case RAW10 => 10
    case DEPTH_16 => 16
    case DEPTH_24 => 24
    case DEPTH_24_STENCIL_8 => 24 + 8
    case DEPTH_32F => 32
    case DEPTH_32F_STENCIL_8 => 32 + 8
    case _ => 8
  }

  /** The pixels that share the group: two or four where chroma is shared. */
  function GroupPixels(id: BaseFormat): nat {
    match id
    case YUV422_8BIT => 2
    case Y210 => 2
    case Y0L2 => 4
    case _ => 1
  }

  /** The bits a sample takes up in its own plane: ten-bit samples are padded to 16, but not in NV15 and NV30. */
  function PlaneSample(f: FormatInfo): nat {
    if f.bps == 10 && f.id != NV15 && f.id != NV30 then 16 else f.bps
  }

  /**
   * The uncompressed depth of every plane is the bits of its samples: those of its group of pixels in one plane, whole
   * samples of each component in its own plane otherwise.
   */
  lemma DepthsAreTheSamples(id: BaseFormat, p: nat)
    requires HasInfo(id) && Info(id).linear && p < Info(id).npln <= 3
    ensures var f := Info(id);
      if f.npln == 1 then GroupPixels(id) * f.bpp.p0 == GroupBits(id)
      else f.bpp.At(p) == f.ncmp.At(p) * PlaneSample(f)
  {
    hide Info, GroupBits, GroupPixels, PlaneSample;
    GroupDepth(id);
    LumaDepth(id);
    ChromaDepth(id);
  }

  lemma GroupDepth(id: BaseFormat)
    requires HasInfo(id)
    ensures Info(id).linear && Info(id).npln == 1 ==> GroupPixels(id) * Info(id).bpp.p0 == GroupBits(id)
  {
    match id {
      case RGB_565 => case RGB_888 => case BGR_888 => case RGBA_8888 => case BGRA_8888 => case RGBX_8888 =>
      case RGBA_1010102 => case RGBA_16161616 => case RGBA_10101010 => case Y8 => case Y16 =>
      case YUV420_8BIT_I => case NV12 => case NV21 => case YV12 => case YU12 => case YUV422_8BIT =>
      case NV16 => case NV24 => case YUV444 => case NV30 => case Q410 => case Q401 => case YUV420_10BIT_I =>
      case Y0L2 => case P010 => case NV15 => case Y210 => case P210 => case Y410 => case RAW16 => case RAW12 =>
      case RAW10 => case BLOB => case DEPTH_16 => case DEPTH_24 => case DEPTH_24_STENCIL_8 => case DEPTH_32F =>
      case DEPTH_32F_STENCIL_8 => case STENCIL_8 => case R8 =>
    }
  }

  lemma LumaDepth(id: BaseFormat)
    requires HasInfo(id)
    ensures var f := Info(id); f.linear && f.npln > 1 ==> f.ncmp.p0 == 1 && f.bpp.p0 == PlaneSample(f)
  {
    match id {
      case RGB_565 => case RGB_888 => case BGR_888 => case RGBA_8888 => case BGRA_8888 => case RGBX_8888 =>
      case RGBA_1010102 => case RGBA_16161616 => case RGBA_10101010 => case Y8 => case Y16 =>
      case YUV420_8BIT_I => case NV12 => case NV21 => case YV12 => case YU12 => case YUV422_8BIT =>
      case NV16 => case NV24 => case YUV444 => case NV30 => case Q410 => case Q401 => case YUV420_10BIT_I =>
      case Y0L2 => case P010 => case NV15 => case Y210 => case P210 => case Y410 => case RAW16 => case RAW12 =>
      case RAW10 => case BLOB => case DEPTH_16 => case DEPTH_24 => case DEPTH_24_STENCIL_8 => case DEPTH_32F =>
      case DEPTH_32F_STENCIL_8 => case STENCIL_8 => case R8 =>
    }
  }

  lemma ChromaDepth(id: BaseFormat)
    requires HasInfo(id)
    ensures var f := Info(id); f.linear && f.npln > 1 ==>
      && f.npln <= 3 && f.bpp.p1 == f.ncmp.p1 * PlaneSample(f) && f.bpp.p2 == f.ncmp.p2 * PlaneSample(f)
  {
    match id {
      case RGB_565 => case RGB_888 => case BGR_888 => case RGBA_8888 => case BGRA_8888 => case RGBX_8888 =>
      case RGBA_1010102 => case RGBA_16161616 => case RGBA_10101010 => case Y8 => case Y16 =>
      case YUV420_8BIT_I => case NV12 => case NV21 => case YV12 => case YU12 => case YUV422_8BIT =>
      case NV16 => case NV24 => case YUV444 => case NV30 => case Q410 => case Q401 => case YUV420_10BIT_I =>
      case Y0L2 => case P010 => case NV15 => case Y210 => case P210 => case Y410 => case RAW16 => case RAW12 =>
      case RAW10 => case BLOB => case DEPTH_16 => case DEPTH_24 => case DEPTH_24_STENCIL_8 => case DEPTH_32F =>
      case DEPTH_32F_STENCIL_8 => case STENCIL_8 => case R8 =>
    }
  }

  /**
   * Compressed samples are not padded: an AFBC plane has the bits of its components, chroma counted once for the pixels
   * that share it; RGB keeps the depth of its name.
   */
  lemma CompressedDepths(id: BaseFormat, p: nat)
    requires HasInfo(id) && Info(id).afbc && p < Info(id).npln <= 3
    ensures var f := Info(id);
      if f.npln > 1 then f.bppAfbc.At(p) == f.ncmp.At(p) * f.bps
      else if f.isYuv && f.ncmp.p0 == 3 then f.bppAfbc.p0 * (f.hsub * f.vsub) == f.bps * (f.hsub * f.vsub + 2)
      else if id == RGBA_10101010 then f.bppAfbc.p0 == 4 * 10
      else f.bppAfbc.p0 == GroupBits(id)
  {
    hide Info, GroupBits;
    PlaneDepths(id);
    PixelDepths(id);
  }

  lemma PlaneDepths(id: BaseFormat)
    requires HasInfo(id)
    ensures var f := Info(id); f.afbc && f.npln > 1 ==>
      f.bppAfbc.p0 == f.ncmp.p0 * f.bps && f.bppAfbc.p1 == f.ncmp.p1 * f.bps && f.bppAfbc.p2 == f.ncmp.p2 * f.bps
  {
    match id {
      case RGB_565 => case RGB_888 => case BGR_888 => case RGBA_8888 => case BGRA_8888 => case RGBX_8888 =>
      case RGBA_1010102 => case RGBA_16161616 => case RGBA_10101010 => case Y8 => case Y16 =>
      case YUV420_8BIT_I => case NV12 => case NV21 => case YV12 => case YU12 => case YUV422_8BIT =>
      case NV16 => case NV24 => case YUV444 => case NV30 => case Q410 => case Q401 => case YUV420_10BIT_I =>
      case Y0L2 => case P010 => case NV15 => case Y210 => case P210 => case Y410 => case RAW16 => case RAW12 =>
      case RAW10 => case BLOB => case DEPTH_16 => case DEPTH_24 => case DEPTH_24_STENCIL_8 => case DEPTH_32F =>
      case DEPTH_32F_STENCIL_8 => case STENCIL_8 => case R8 =>
    }
  }

  lemma PixelDepths(id: BaseFormat)
    requires HasInfo(id)
    ensures var f := Info(id); f.afbc && f.npln == 1 ==>
      if f.isYuv && f.ncmp.p0 == 3 then f.bppAfbc.p0 * (f.hsub * f.vsub) == f.bps * (f.hsub * f.vsub + 2)
      else if id == RGBA_10101010 then f.bppAfbc.p0 == 4 * 10
      else f.bppAfbc.p0 == GroupBits(id)
  {
    match id {
      case RGB_565 => case RGB_888 => case BGR_888 => case RGBA_8888 => case BGRA_8888 => case RGBX_8888 =>
      case RGBA_1010102 => case RGBA_16161616 => case RGBA_10101010 => case Y8 => case Y16 =>
      case YUV420_8BIT_I => case NV12 => case NV21 => case YV12 => case YU12 => case YUV422_8BIT =>
      case NV16 => case NV24 => case YUV444 => case NV30 => case Q410 => case Q401 => case YUV420_10BIT_I =>
      case Y0L2 => case P010 => case NV15 => case Y210 => case P210 => case Y410 => case RAW16 => case RAW12 =>
      case RAW10 => case BLOB => case DEPTH_16 => case DEPTH_24 => case DEPTH_24_STENCIL_8 => case DEPTH_32F =>
      case DEPTH_32F_STENCIL_8 => case STENCIL_8 => case R8 =>
    }
  }
}
