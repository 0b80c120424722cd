/** IP capabilities: the conjunction over producers and consumers, and the presence check. */
module Capabilities {
  import opened Bits
  import opened Ips
  import opened MachineInts

  datatype Feature =
    | R10G10B10A2 | R16G16B16A16_FLOAT | YUV_BL_8 | YUV_BL_10 | AFBC_16X16 | AFBC_32X8 | AFBC_64X4
    | AFBC_BLOCK_SPLIT | AFBC_TILED_HEADERS | AFBC_DOUBLE_BODY | AFBC_WRITE_NON_SPARSE | AFBC_YUV
    | AFBC_R16G16B16A16_FLOAT | AFRC_ROT | AFRC_SCAN | DISABLED

  /** The capability files: which IPs have one, and what each may write and read. Any content is possible. */
  datatype Caps = Caps(known: IpSet, write: set<(nat, Feature)>, read: set<(nat, Feature)>)

  predicate CpuSupports(f: Feature) {
    f == R10G10B10A2 || f == R16G16B16A16_FLOAT
  }

  /** The IPs with capability files, in the order the source checks them. */
  const HANDLES: seq<nat> := [GPU, DPU, DPU_AEU, VPU, CAM]

  /** What one IP says about a feature: an IP without a file restricts nothing. */
  predicate Allows(caps: Caps, ip: nat, writing: bool, reading: bool, f: Feature) {
    ip in caps.known ==> (writing ==> (ip, f) in caps.write) && (reading ==> (ip, f) in caps.read)
  }

  predicate Supports(caps: Caps, producers: IpSet, consumers: IpSet, f: Feature) {
    && (CPU in producers || CPU in consumers ==> CpuSupports(f))
    && forall ip :: ip in HANDLES ==> Allows(caps, ip, ip in producers, ip in consumers, f)
  }

  /** What ip_support_feature comes to: an answer, or the end of the process. */
  datatype Answer = Says(supported: bool) | Aborts

  predicate CpuRefuses(producers: IpSet, consumers: IpSet, f: Feature) {
    (CPU in producers || CPU in consumers) && !CpuSupports(f)
  }

  /** Without a file for the GPU every question the CPU does not settle aborts. */
  function AnswerOf(caps: Caps, producers: IpSet, consumers: IpSet, f: Feature): Answer {
    if CpuRefuses(producers, consumers, f) then Says(false)
    else if GPU !in caps.known then Aborts
    else Says(Supports(caps, producers, consumers, f))
  }

  /** ip_support_feature: the first IP that objects ends the loop; the GPU, asked first, must have a file. */
  method IpSupportFeature(caps: Caps, producers: IpSet, consumers: IpSet, f: Feature) returns (r: Answer)
    ensures r == AnswerOf(caps, producers, consumers, f)
    ensures r.Says? ==> r.supported == Supports(caps, producers, consumers, f)
  {
    if (CPU in producers || CPU in consumers) && !CpuSupports(f) {
      return Says(false);
    }
    for i := 0 to |HANDLES|
      invariant i > 0 ==> GPU in caps.known
      invariant forall k :: 0 <= k < i ==> Allows(caps, HANDLES[k], HANDLES[k] in producers, HANDLES[k] in consumers, f)
    {
      var ip := HANDLES[i];
      if ip !in caps.known {
        if ip == GPU {
          return Aborts;
        }
        continue;
      }
      if ip in producers && (ip, f) !in caps.write {
        return Says(false);
      }
      if ip in consumers && (ip, f) !in caps.read {
        return Says(false);
      }
    }
    return Says(true);
  }

  /** Support is a homomorphism: a union of IPs supports exactly what all its parts support. */
  lemma SupportOfUnion(caps: Caps, p1: IpSet, c1: IpSet, p2: IpSet, c2: IpSet, f: Feature)
    ensures Supports(caps, p1 + p2, c1 + c2, f) <==> Supports(caps, p1, c1, f) && Supports(caps, p2, c2, f)
  {
    hide CpuSupports;
    if Supports(caps, p1 + p2, c1 + c2, f) {
      forall ip | ip in HANDLES
        ensures Allows(caps, ip, ip in p1, ip in c1, f) && Allows(caps, ip, ip in p2, ip in c2, f)
      {
        assert Allows(caps, ip, ip in p1 + p2, ip in c1 + c2, f);
      }
    }
    if Supports(caps, p1, c1, f) && Supports(caps, p2, c2, f) {
      forall ip | ip in HANDLES
        ensures Allows(caps, ip, ip in p1 + p2, ip in c1 + c2, f)
      {
        assert Allows(caps, ip, ip in p1, ip in c1, f) && Allows(caps, ip, ip in p2, ip in c2, f);
      }
    }
  }

  /** Adding an IP never makes more supported, and nothing is asked of no IPs. */
  lemma SupportShrinks(caps: Caps, p: IpSet, c: IpSet, p': IpSet, c': IpSet, f: Feature)
    requires p <= p' && c <= c'
    ensures Supports(caps, p', c', f) ==> Supports(caps, p, c, f)
    ensures Supports(caps, {}, {}, f)
  {
    assert p + p' == p' && c + c' == c';
    SupportOfUnion(caps, p, c, p', c', f);
  }

  /**
   * What one IP supports by itself: the CPU two deep-colour formats, any other what its file says, or everything
   * without a file. With SupportOfUnion this says what any set of them supports.
   */
  lemma OneIpSupports(caps: Caps, ip: nat, f: Feature)
    requires ip in ALL_IPS
    ensures var cpu := f == R10G10B10A2 || f == R16G16B16A16_FLOAT;
      && (Supports(caps, {ip}, {}, f) <==> if ip == CPU then cpu else ip in caps.known ==> (ip, f) in caps.write)
      && (Supports(caps, {}, {ip}, f) <==> if ip == CPU then cpu else ip in caps.known ==> (ip, f) in caps.read)
  {
    if ip != CPU {
      assert ip in HANDLES;
    }
  }

  // ----- presence -----

  /** The IPs of a 32-bit mask. */
  function IpsOf(mask: nat): IpSet {
    set k: nat | k < 32 && Bit(mask, k)
  }

  /** Every IP of the set is there: none is marked disabled for both reading and writing. */
  predicate Present(caps: Caps, ips: IpSet) {
    forall ip :: ip in ips ==> !Supports(caps, {ip}, {ip}, DISABLED)
  }

  /**
   * The shifting loop: `ip` runs through the powers of two until it passes the mask, or wraps to zero after bit 31.
   * It stops, and it has looked at every bit of the mask.
   */
  method IsPresent(caps: Caps, mask: nat) returns (r: Answer)
    requires mask < U32
    ensures r == if GPU !in caps.known && !(IpsOf(mask) <= {CPU}) then Aborts else Says(Present(caps, IpsOf(mask)))
  {
    hide Supports;
    Pow2Of32();
    var ip := 1;
    var k := 0;
    while ip <= mask && ip != 0
      invariant k <= 32
      invariant ip == if k < 32 then Pow2(k) else 0
      invariant forall j: nat :: j < k && Bit(mask, j) ==>
        !Supports(caps, {j}, {j}, DISABLED) && (j == CPU || GPU in caps.known)
      decreases 32 - k
    {
      if mask / ip % 2 == 1 {
        var disabled := IpSupportFeature(caps, {k}, {k}, DISABLED);
        assert k in IpsOf(mask);
        match disabled {
          case Aborts => return Aborts;
          case Says(true) => return Says(false);
          case Says(false) =>
        }
      }
      WrappedShift(k);
      ip, k := ip * 2 % U32, k + 1;
    }
    forall j: nat | k <= j
      ensures !Bit(mask, j)
    {
      NoBitsAbove(mask, k, j);
    }
    return Says(true);
  }

  lemma WrappedShift(k: nat)
    requires k < 32
    ensures Pow2(k) * 2 % U32 == if k + 1 < 32 then Pow2(k + 1) else 0
  {
    Pow2Of32();
    if k + 1 < 32 {
      Pow2Grows(k + 1, 31);
      assert Pow2(32) == 2 * Pow2(31);
    }
  }
}
