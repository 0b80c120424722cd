/**
 * The hardware blocks (IPs) that produce and consume a buffer.
 *
 * The source keeps a set of IPs as a 32-bit mask; here it is the set of the mask's bit positions.
 */
module Ips {
  import opened Usages

  type IpSet = set<nat>

  const CPU: nat := 0
  const GPU: nat := 1
  const DPU: nat := 2
  const DPU_AEU: nat := 3
  const VPU: nat := 4
  const CAM: nat := 5

  const ALL_IPS: IpSet := {CPU, GPU, DPU, DPU_AEU, VPU, CAM}

  function When(condition: bool, ip: nat): IpSet {
    if condition then {ip} else {}
  }

  /** Private and protected usage plays no part in deriving producers and consumers. */
  function PublicUsage(usage: bv64): bv64 {
    usage & !PRIVATE_MASK & !PROTECTED
  }

  function GetConsumers(usage: bv64): IpSet {
    var u := PublicUsage(usage);
    if u == HW_COMPOSER then {DPU}
    else
      When(Has(u, SW_READ_MASK), CPU)
      + When(Has(u, HW_FB) || (Has(u, HW_TEXTURE) && Has(u, HW_COMPOSER)), DPU)
      + When(Has(u, HW_VIDEO_ENCODER), VPU)
      + When(Has(u, HW_TEXTURE | GPU_DATA_BUFFER), GPU)
  }

  function GetProducers(usage: bv64): IpSet {
    var u := PublicUsage(usage);
    if u == HW_COMPOSER then {DPU_AEU}
    else
      When(Has(u, SW_WRITE_MASK), CPU)
      + When(!Has(u, DECODER) && Has(u, HW_COMPOSER) && Has(u, HW_VIDEO_ENCODER), DPU)
      + When(Has(u, HW_RENDER | GPU_DATA_BUFFER), GPU)
      + When(Has(u, HW_CAMERA_WRITE), CAM)
      + When(Has(u, DECODER), VPU)
  }

  lemma SoftwareFlagsArePublic(usage: bv64)
    ensures Has(PublicUsage(usage), SW_WRITE_MASK) <==> Has(usage, SW_WRITE_MASK)
    ensures Has(PublicUsage(usage), SW_READ_MASK) <==> Has(usage, SW_READ_MASK)
    ensures HasCpu(usage) <==> Has(usage, SW_WRITE_MASK) || Has(usage, SW_READ_MASK)
  {
  }

  lemma ComposerAlone()
    ensures !Has(HW_COMPOSER, SW_WRITE_MASK) && !Has(HW_COMPOSER, SW_READ_MASK)
  {
  }

  /** The CPU takes part exactly when the usage carries a software read or write flag. */
  lemma CpuTakesPart(usage: bv64)
    ensures CPU in GetProducers(usage) <==> Has(usage, SW_WRITE_MASK)
    ensures CPU in GetConsumers(usage) <==> Has(usage, SW_READ_MASK)
    ensures HasCpu(usage) <==> CPU in GetProducers(usage) || CPU in GetConsumers(usage)
    ensures GetProducers(usage) <= ALL_IPS && GetConsumers(usage) <= {CPU, GPU, DPU, VPU}
  {
    hide Has, HasCpu, PublicUsage;
    SoftwareFlagsArePublic(usage);
    ComposerAlone();
  }

  /**
   * Composition alone is the display's business: it reads what its output unit writes. Protection, and the private bits
   * 28 to 31 and 48 to 63, do not count.
   */
  predicate ComposerOnly(usage: bv64) {
    usage & 0x0000_ffff_0fff_bfff == 0x800
  }

  /** Which IPs read a buffer, each by itself. */
  lemma ConsumersAre(usage: bv64)
    ensures CPU in GetConsumers(usage) <==> Has(usage, SW_READ_MASK)
    ensures GPU in GetConsumers(usage) <==> Has(usage, HW_TEXTURE) || Has(usage, GPU_DATA_BUFFER)
    ensures VPU in GetConsumers(usage) <==> Has(usage, HW_VIDEO_ENCODER)
    ensures DPU in GetConsumers(usage) <==>
            ComposerOnly(usage) || Has(usage, HW_FB) || (Has(usage, HW_TEXTURE) && Has(usage, HW_COMPOSER))
    ensures CAM !in GetConsumers(usage) && DPU_AEU !in GetConsumers(usage)
  {
    ReadingFlags(usage);
    hide Has, PublicUsage, ComposerOnly;
  }

  lemma ReadingFlags(usage: bv64)
    ensures var u := PublicUsage(usage);
      && (u == HW_COMPOSER <==> ComposerOnly(usage))
      && (Has(u, SW_READ_MASK) <==> Has(usage, SW_READ_MASK))
      && (Has(u, HW_TEXTURE | GPU_DATA_BUFFER) <==> Has(usage, HW_TEXTURE) || Has(usage, GPU_DATA_BUFFER))
      && (Has(u, HW_VIDEO_ENCODER) <==> Has(usage, HW_VIDEO_ENCODER)) && (Has(u, HW_FB) <==> Has(usage, HW_FB))
      && (Has(u, HW_TEXTURE) <==> Has(usage, HW_TEXTURE)) && (Has(u, HW_COMPOSER) <==> Has(usage, HW_COMPOSER))
      && (u == HW_COMPOSER ==> !Has(usage, SW_READ_MASK) && !Has(usage, HW_TEXTURE) && !Has(usage, GPU_DATA_BUFFER)
                               && !Has(usage, HW_VIDEO_ENCODER))
  {
  }

  /** Which IPs write it. */
  lemma ProducersAre(usage: bv64)
    ensures CPU in GetProducers(usage) <==> Has(usage, SW_WRITE_MASK)
    ensures GPU in GetProducers(usage) <==> Has(usage, HW_RENDER) || Has(usage, GPU_DATA_BUFFER)
    ensures CAM in GetProducers(usage) <==> Has(usage, HW_CAMERA_WRITE)
    ensures VPU in GetProducers(usage) <==> Has(usage, DECODER)
    ensures DPU in GetProducers(usage) <==>
            Has(usage, HW_COMPOSER) && Has(usage, HW_VIDEO_ENCODER) && !Has(usage, DECODER)
    ensures DPU_AEU in GetProducers(usage) <==> ComposerOnly(usage)
  {
    WritingFlags(usage);
    hide Has, PublicUsage, ComposerOnly;
  }

  lemma WritingFlags(usage: bv64)
    ensures var u := PublicUsage(usage);
      && (u == HW_COMPOSER <==> ComposerOnly(usage))
      && (Has(u, SW_WRITE_MASK) <==> Has(usage, SW_WRITE_MASK)) && (Has(u, DECODER) <==> Has(usage, DECODER))
      && (Has(u, HW_RENDER | GPU_DATA_BUFFER) <==> Has(usage, HW_RENDER) || Has(usage, GPU_DATA_BUFFER))
      && (Has(u, HW_COMPOSER) <==> Has(usage, HW_COMPOSER))
      && (Has(u, HW_VIDEO_ENCODER) <==> Has(usage, HW_VIDEO_ENCODER))
      && (Has(u, HW_CAMERA_WRITE) <==> Has(usage, HW_CAMERA_WRITE))
      && (u == HW_COMPOSER ==> !Has(usage, SW_WRITE_MASK) && !Has(usage, HW_RENDER) && !Has(usage, GPU_DATA_BUFFER)
                               && !Has(usage, HW_CAMERA_WRITE) && !Has(usage, DECODER)
                               && !Has(usage, HW_VIDEO_ENCODER))
  {
  }
}
