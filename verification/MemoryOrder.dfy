/**
 * The order in which a format's components lie in memory, by itself, and that both locks read each component from the
 * place this order gives it.
 */
module MemoryOrder {
  import opened Formats
  import opened Access

  datatype Slot = Holds(component: Component) | Unused

  const LUMA_ONLY: seq<Slot> := [Holds(CompY)]
  const CB_CR: seq<Slot> := [Holds(CompCb), Holds(CompCr)]
  const CR_CB: seq<Slot> := [Holds(CompCr), Holds(CompCb)]

  /** One pixel's slots in a plane, first byte first; two pixels' where a packed row shares chroma between them. */
  function OrderOf(id: BaseFormat, p: nat): seq<Slot> {
    match id
    case Y8 => LUMA_ONLY
    case Y16 => LUMA_ONLY
    case NV12 => if p == 0 then LUMA_ONLY else CB_CR
    case NV16 => if p == 0 then LUMA_ONLY else CB_CR
    case P010 => if p == 0 then LUMA_ONLY else CB_CR
    case P210 => if p == 0 then LUMA_ONLY else CB_CR
    case NV21 => if p == 0 then LUMA_ONLY else CR_CB
    case YV12 => if p == 0 then LUMA_ONLY else if p == 1 then [Holds(CompCr)] else [Holds(CompCb)]
    case YU12 => if p == 0 then LUMA_ONLY else if p == 1 then [Holds(CompCb)] else [Holds(CompCr)]
    case YUV422_8BIT => [Holds(CompY), Holds(CompCb), Holds(CompY), Holds(CompCr)]
    case Y210 => [Holds(CompY), Holds(CompCb), Holds(CompY), Holds(CompCr)]
    case RGBA_16161616 => [Holds(CompR), Holds(CompG), Holds(CompB), Holds(CompA)]
    case RGBA_8888 => [Holds(CompR), Holds(CompG), Holds(CompB), Holds(CompA)]
    case RGBX_8888 => [Holds(CompR), Holds(CompG), Holds(CompB), Unused]
    case RGB_888 => [Holds(CompR), Holds(CompG), Holds(CompB)]
    case BGRA_8888 => [Holds(CompB), Holds(CompG), Holds(CompR), Holds(CompA)]
    case _ => []
  }

  /** The bytes of a slot. */
  function SlotBytes(id: BaseFormat): nat {
    if id in {Y16, P010, P210, Y210, RGBA_16161616} then 2 else 1
  }

  /** The slots of a packed row are those of two pixels. */
  predicate TwoPixels(id: BaseFormat) {
    id == YUV422_8BIT || id == Y210
  }

  /** The order fills exactly the depth the format table has for the plane. */
  lemma OrderFillsDepth(id: BaseFormat, p: nat)
    requires FlexChannels(id).Some?
    ensures HasInfo(id) && Info(id).npln <= 3
    ensures p < Info(id).npln ==>
      8 * SlotBytes(id) * |OrderOf(id, p)| == (if TwoPixels(id) then 2 else 1) * Info(id).bpp.At(p)
  {
    match id {
      case Y8 => case Y16 => case NV12 => case NV21 => case YV12 => case YU12 => case P010 => case P210 =>
      case YUV422_8BIT => case NV16 => case Y210 => case RGBA_16161616 => case RGBA_8888 => case RGBX_8888 =>
      case RGB_888 => case BGRA_8888 =>
    }
  }

  /** The channel starts at its component's slot, behind all slots before it; luma, which can come twice, at zero. */
  predicate StartsAtSlot(id: BaseFormat, c: Channel) {
    var order, i := OrderOf(id, c.plane), c.offset / SlotBytes(id);
    && i < |order| && order[i] == Holds(c.component) && (c.component == CompY ==> i == 0)
    && c.offset == i * SlotBytes(id)
  }

  /** The component comes once, or luma twice in a packed row; its samples are evenly spaced and fill their slots. */
  predicate StepsOver(id: BaseFormat, c: Channel) {
    && c.bytes == SlotBytes(id)
    && c.step == |OrderOf(id, c.plane)| * SlotBytes(id) / (if TwoPixels(id) && c.component == CompY then 2 else 1)
  }

  predicate Follows(id: BaseFormat, c: Channel) {
    StartsAtSlot(id, c) && StepsOver(id, c)
  }

  /** Every channel of every format a flex lock handles: its offset is the size of the slots before its component. */
  lemma FlexFollowsOrder(id: BaseFormat, k: nat)
    requires FlexChannels(id).Some? && k < |FlexChannels(id).value|
    ensures Follows(id, FlexChannels(id).value[k])
  {
    HandledFormats(id);
    if id in RGB_HANDLED {
      RgbFollowsOrder(id, k);
    } else if TwoPixels(id) {
      PackedFollowsOrder(id, k);
    } else {
      YuvFollowsOrder(id, k);
    }
  }

  lemma RgbFollowsOrder(id: BaseFormat, k: nat)
    requires id in RGB_HANDLED && FlexChannels(id).Some? && k < |FlexChannels(id).value|
    ensures Follows(id, FlexChannels(id).value[k])
  {
    match id {
      case RGBA_16161616 => case RGBA_8888 => case RGBX_8888 => case RGB_888 => case BGRA_8888 =>
    }
  }

  lemma PackedFollowsOrder(id: BaseFormat, k: nat)
    requires TwoPixels(id) && FlexChannels(id).Some? && k < |FlexChannels(id).value|
    ensures Follows(id, FlexChannels(id).value[k])
  {
    match id {
      case YUV422_8BIT => case Y210 =>
    }
  }

  lemma YuvFollowsOrder(id: BaseFormat, k: nat)
    requires id in YUV_HANDLED && !TwoPixels(id) && FlexChannels(id).Some? && k < |FlexChannels(id).value|
    ensures Follows(id, FlexChannels(id).value[k])
  {
    hide FlexChannels, Follows;
    if id in {NV12, NV21, NV16, P010, P210} {
      SemiPlanarFollowsOrder(id, k);
    } else {
      PlanarFollowsOrder(id, k);
    }
  }

  lemma SemiPlanarFollowsOrder(id: BaseFormat, k: nat)
    requires id in {NV12, NV21, NV16, P010, P210} && FlexChannels(id).Some? && k < |FlexChannels(id).value|
    ensures Follows(id, FlexChannels(id).value[k])
  {
    match id {
      case NV12 => case NV21 => case P010 => case P210 => case NV16 =>
    }
  }

  lemma PlanarFollowsOrder(id: BaseFormat, k: nat)
    requires id in {Y8, Y16, YV12, YU12} && FlexChannels(id).Some? && k < |FlexChannels(id).value|
    ensures Follows(id, FlexChannels(id).value[k])
  {
    match id {
      case Y8 => case Y16 => case YV12 => case YU12 =>
    }
  }

  /** Of the bits of a slot ten carry data in the ten-bit formats of the table, and all of them elsewhere. */
  lemma UsedBitsAreTheDepth(id: BaseFormat, k: nat)
    requires FlexChannels(id).Some? && k < |FlexChannels(id).value|
    ensures HasInfo(id)
    ensures FlexChannels(id).value[k].bitsUsed == if Info(id).bps == 10 then 10 else 8 * SlotBytes(id)
  {
    match id {
      case Y8 => case Y16 => case NV12 => case NV21 => case YV12 => case YU12 => case P010 => case P210 =>
      case YUV422_8BIT => case NV16 => case Y210 => case RGBA_16161616 => case RGBA_8888 => case RGBX_8888 =>
      case RGB_888 => case BGRA_8888 =>
    }
  }

  /** The channels of an android_ycbcr are in the same places; only Y16's luma is read by single bytes. */
  lemma YcbcrFollowsOrder(id: BaseFormat, k: nat)
    requires YcbcrChannels(id).Some? && k < |YcbcrChannels(id).value|
    ensures StartsAtSlot(id, YcbcrChannels(id).value[k])
    ensures id != Y16 ==> StepsOver(id, YcbcrChannels(id).value[k])
  {
    match id {
      case Y8 => case Y16 => case NV12 => case NV21 => case YV12 => case YU12 =>
    }
  }

  // ----- exchanged formats -----

  /** What a component is called in the format with two components exchanged. */
  function Exchanged(c: Component, a: Component, b: Component): Component {
    if c == a then b else if c == b then a else c
  }

  /** The same places, with two components exchanged. */
  predicate AreExchanged(x: seq<Channel>, y: seq<Channel>, a: Component, b: Component) {
    && |x| == |y|
    && (forall j :: 0 <= j < |x| ==>
          exists k :: 0 <= k < |y| && y[k] == x[j].(component := Exchanged(x[j].component, a, b)))
  }

  /** RGBA_8888 with red and blue exchanged is BGRA_8888; NV12 with the chroma components exchanged is NV21. */
  lemma ExchangedFormats()
    ensures AreExchanged(FlexChannels(RGBA_8888).value, FlexChannels(BGRA_8888).value, CompR, CompB)
    ensures AreExchanged(FlexChannels(NV12).value, FlexChannels(NV21).value, CompCb, CompCr)
  {
    hide AreExchanged, FlexChannels;
    RedAndBlue();
    ChromaExchanged();
  }

  lemma RedAndBlue()
    ensures AreExchanged(FlexChannels(RGBA_8888).value, FlexChannels(BGRA_8888).value, CompR, CompB)
  {
    var rgba, bgra := FlexChannels(RGBA_8888).value, FlexChannels(BGRA_8888).value;
    assert bgra[2] == rgba[0].(component := CompB) && bgra[1] == rgba[1];
    assert bgra[0] == rgba[2].(component := CompR) && bgra[3] == rgba[3];
  }

  lemma ChromaExchanged()
    ensures AreExchanged(FlexChannels(NV12).value, FlexChannels(NV21).value, CompCb, CompCr)
  {
    var nv12, nv21 := FlexChannels(NV12).value, FlexChannels(NV21).value;
    assert nv21[0] == nv12[0] && nv21[2] == nv12[1].(component := CompCr);
    assert nv21[1] == nv12[2].(component := CompCb);
  }
}
