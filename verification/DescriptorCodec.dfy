/** The buffer descriptor as it crosses the process boundary: a fixed-size byte vector written and read at a cursor. */
module DescriptorCodec {
  import opened Bytes
  import opened Formats
  import opened MachineInts

  const MAX_NAME: nat := 127
  const NAME_BUFFER: nat := 128
  const STATIC_SIZE: nat := 160

  /** The client's request; `format` is a signed 32-bit enumerator, `name` any byte string. */
  datatype DescriptorInfo = DescriptorInfo(
    width: nat, height: nat, layerCount: nat, format: int, usage: nat, reservedSize: nat, name: seq<Byte>)

  ghost predicate Representable(d: DescriptorInfo) {
    && d.width < U32 && d.height < U32 && d.layerCount < U32 && -0x8000_0000 <= d.format < 0x8000_0000
    && d.usage < U64 && d.reservedSize < U64
  }

  /** The fields the decoder fills. */
  datatype Decoded = Decoded(
    width: nat, height: nat, layerCount: nat, halFormat: nat, producerUsage: nat, consumerUsage: nat,
    reservedSize: nat, name: seq<Byte>)

  // ----- names -----

  /** The part of a name that a C string holds: up to the first NUL, and no longer than the limit. */
  function Cut(name: seq<Byte>, limit: nat): seq<Byte> {
    if limit == 0 || name == [] || name[0] == 0 then [] else [name[0]] + Cut(name[1..], limit - 1)
  }

  lemma {:induction false} CutIsPrefix(name: seq<Byte>, limit: nat)
    ensures |Cut(name, limit)| <= limit && |Cut(name, limit)| <= |name|
    ensures Cut(name, limit) == name[..|Cut(name, limit)|]
    ensures forall k :: 0 <= k < |Cut(name, limit)| ==> Cut(name, limit)[k] != 0
    ensures |Cut(name, limit)| < limit && |Cut(name, limit)| < |name| ==> name[|Cut(name, limit)|] == 0
  {
    if limit == 0 || name == [] || name[0] == 0 {
    } else {
      CutIsPrefix(name[1..], limit - 1);
      assert Cut(name, limit)[1..] == Cut(name[1..], limit - 1);
    }
  }

  /** The name field: the cut name, then zeros. */
  function NameField(name: seq<Byte>): (s: seq<Byte>)
    ensures |s| == NAME_BUFFER
  {
    CutIsPrefix(name, MAX_NAME);
    Cut(name, MAX_NAME) + Zeros(NAME_BUFFER - |Cut(name, MAX_NAME)|)
  }

  function Zeros(n: nat): (s: seq<Byte>)
    ensures |s| == n && forall k :: 0 <= k < n ==> s[k] == 0
  {
    if n == 0 then [] else [0] + Zeros(n - 1)
  }

  lemma NameFieldAt(name: seq<Byte>, k: nat)
    requires k < NAME_BUFFER
    ensures |Cut(name, MAX_NAME)| <= MAX_NAME && |Cut(name, MAX_NAME)| <= |name|
    ensures NameField(name)[k] == if k < |Cut(name, MAX_NAME)| then name[k] else 0
  {
    CutIsPrefix(name, MAX_NAME);
    var zeros := Zeros(NAME_BUFFER - |Cut(name, MAX_NAME)|);
    hide Cut, Zeros;
    if k >= |Cut(name, MAX_NAME)| {
      assert NameField(name)[k] == zeros[k - |Cut(name, MAX_NAME)|];
    }
  }

  /** A field with the name's bytes up to the cut and zeros behind them is the name field. */
  lemma FieldIsNameField(field: seq<Byte>, name: seq<Byte>, cut: nat)
    requires |field| == NAME_BUFFER && cut == |Cut(name, MAX_NAME)| && cut <= |name| && cut <= MAX_NAME
    requires forall k: nat :: k < cut ==> field[k] == name[k]
    requires forall k: nat :: cut <= k < NAME_BUFFER ==> field[k] == 0
    ensures field == NameField(name)
  {
    forall k: nat | k < NAME_BUFFER
      ensures field[k] == NameField(name)[k]
    {
      NameFieldAt(name, k);
    }
    hide NameField;
  }

  /** Read as a C string, the field gives back exactly the cut name. */
  lemma NameFieldHoldsCut(name: seq<Byte>)
    ensures Cut(NameField(name), NAME_BUFFER) == Cut(name, MAX_NAME)
  {
    var c := Cut(name, MAX_NAME);
    CutIsPrefix(name, MAX_NAME);
    CutOfTerminated(c, Zeros(NAME_BUFFER - |c|), NAME_BUFFER);
  }

  lemma {:induction false} CutOfTerminated(s: seq<Byte>, rest: seq<Byte>, limit: nat)
    requires |s| < limit && rest != [] && rest[0] == 0
    requires forall k :: 0 <= k < |s| ==> s[k] != 0
    ensures Cut(s + rest, limit) == s
  {
    if s == [] {
      assert s + rest == rest;
    } else {
      assert (s + rest)[1..] == s[1..] + rest;
      CutOfTerminated(s[1..], rest, limit - 1);
    }
  }

  // ----- specification -----

  /** A signed enumerator as its 32-bit pattern. */
  function Pattern(format: int): nat {
    format % U32
  }

  function Encoded(d: DescriptorInfo): (s: seq<Byte>)
    ensures |s| == STATIC_SIZE
  {
    ToBytes(d.width, 4) + ToBytes(d.height, 4) + ToBytes(d.layerCount, 4) + ToBytes(Pattern(d.format), 4)
    + ToBytes(d.usage, 8) + ToBytes(d.reservedSize, 8) + NameField(d.name)
  }

  function DecodedFrom(s: seq<Byte>): Decoded
    requires |s| == STATIC_SIZE
  {
    var usage := FromBytes(s[16..24]);
    Decoded(FromBytes(s[0..4]), FromBytes(s[4..8]), FromBytes(s[8..12]), FromBytes(s[12..16]), usage, usage,
            FromBytes(s[24..32]), s[32..159] + [0])
  }

  // ----- the byte vector -----

  class ByteVector {
    const bytes: array<Byte>
    var pos: nat

    constructor (size: nat)
      ensures bytes.Length == size && pos == 0 && fresh(bytes)
    {
      bytes := new Byte[size](_ => 0);
      pos := 0;
    }

    constructor Over(bytes: array<Byte>)
      ensures this.bytes == bytes && pos == 0
    {
      this.bytes, pos := bytes, 0;
    }

    /** What has been written before the cursor. */
    ghost function Written(): seq<Byte>
      requires pos <= bytes.Length
      reads this, bytes
    {
      bytes[..pos]
    }

    /** push_descriptor_uint32 and push_descriptor_uint64: n bytes, least significant first. */
    method PushInteger(val: nat, n: nat)
      requires pos + n <= bytes.Length
      modifies this`pos, bytes
      ensures pos == old(pos) + n && Written() == old(Written()) + ToBytes(val, n)
    {
      var image := ToBytes(val, n);
      hide ToBytes;
      forall k | 0 <= k < n {
        bytes[pos + k] := image[k];
      }
      pos := pos + n;
    }

    /** strncpy's copying part: everything before the first NUL, at most 127 bytes. */
    method CopyToNul(name: seq<Byte>) returns (copied: nat)
      requires pos + NAME_BUFFER <= bytes.Length
      modifies bytes
      ensures copied == |Cut(name, MAX_NAME)| && copied <= MAX_NAME && copied <= |name|
      ensures forall k: nat :: k < copied ==> bytes[pos + k] == name[k]
      ensures forall k: nat :: k < pos ==> bytes[k] == old(bytes[k])
    {
      CutIsPrefix(name, MAX_NAME);
      ghost var cut := |Cut(name, MAX_NAME)|;
      assert cut == MAX_NAME || cut == |name| || name[cut] == 0;
      assert forall k :: 0 <= k < cut ==> name[k] != 0;
      hide Cut;
      copied := 0;
      while copied < MAX_NAME && copied < |name| && name[copied] != 0
        invariant copied <= cut
        invariant forall k: nat :: k < copied ==> bytes[pos + k] == name[k]
        invariant forall k: nat :: k < pos ==> bytes[k] == old(bytes[k])
      {
        bytes[pos + copied] := name[copied];
        copied := copied + 1;
      }
    }

    /** push_descriptor_string: strncpy copies to the first NUL and pads with zeros; the last byte is always zero. */
    method PushName(name: seq<Byte>)
      requires pos + NAME_BUFFER <= bytes.Length
      modifies this`pos, bytes
      ensures pos == old(pos) + NAME_BUFFER && Written() == old(Written()) + NameField(name)
    {
      hide Cut, NameField;
      ghost var before := Written();
      var copied := CopyToNul(name);
      forall k | copied <= k < MAX_NAME {
        bytes[pos + k] := 0;
      }
      bytes[pos + MAX_NAME] := 0;
      FieldIsNameField(bytes[pos..pos + NAME_BUFFER], name, copied);
      assert Written() == before;
      assert bytes[..pos + NAME_BUFFER] == bytes[..pos] + bytes[pos..pos + NAME_BUFFER];
      pos := pos + NAME_BUFFER;
    }

    method PopInteger(n: nat) returns (val: nat)
      requires pos + n <= bytes.Length
      modifies this`pos
      ensures pos == old(pos) + n && val == FromBytes(bytes[old(pos)..pos])
    {
      val := FromBytes(bytes[pos..pos + n]);
      pos := pos + n;
    }

    /** pop_descriptor_string: the last byte of the field is not read but set to zero. */
    method PopName() returns (name: seq<Byte>)
      requires pos + NAME_BUFFER <= bytes.Length
      modifies this`pos
      ensures pos == old(pos) + NAME_BUFFER && name == bytes[old(pos)..old(pos) + MAX_NAME] + [0]
    {
      name := bytes[pos..pos + MAX_NAME] + [0];
      pos := pos + NAME_BUFFER;
    }
  }

  // ----- encode and decode -----

  method EncodeDescriptor(d: DescriptorInfo) returns (descriptor: ByteVector)
    ensures fresh(descriptor) && fresh(descriptor.bytes)
    ensures descriptor.bytes[..] == Encoded(d) && descriptor.pos == STATIC_SIZE
  {
    hide ToBytes, NameField, Pattern;
    descriptor := new ByteVector(STATIC_SIZE);
    assert descriptor.Written() == [];
    descriptor.PushInteger(d.width, 4);
    assert descriptor.Written() == ToBytes(d.width, 4);
    descriptor.PushInteger(d.height, 4);
    descriptor.PushInteger(d.layerCount, 4);
    descriptor.PushInteger(Pattern(d.format), 4);
    descriptor.PushInteger(d.usage, 8);
    descriptor.PushInteger(d.reservedSize, 8);
    descriptor.PushName(d.name);
    assert descriptor.Written() == descriptor.bytes[..];
  }

  /** Any other length is rejected; on success the cursor has passed every byte. */
  method DecodeDescriptor(bytes: array<Byte>) returns (r: Option<Decoded>)
    ensures bytes.Length != STATIC_SIZE ==> r == None
    ensures bytes.Length == STATIC_SIZE ==> r == Some(DecodedFrom(bytes[..]))
  {
    hide FromBytes;
    if bytes.Length != STATIC_SIZE {
      return None;
    }
    var vector := new ByteVector.Over(bytes);
    var width := vector.PopInteger(4);
    var height := vector.PopInteger(4);
    var layerCount := vector.PopInteger(4);
    var halFormat := vector.PopInteger(4);
    var producerUsage := vector.PopInteger(8);
    var consumerUsage := producerUsage;
    var reservedSize := vector.PopInteger(8);
    var name := vector.PopName();
    assert vector.pos == STATIC_SIZE;
    ghost var all := bytes[..];
    assert bytes[0..4] == all[0..4] && bytes[4..8] == all[4..8] && bytes[8..12] == all[8..12];
    assert bytes[12..16] == all[12..16] && bytes[16..24] == all[16..24] && bytes[24..32] == all[24..32];
    assert bytes[32..159] == all[32..159];
    return Some(Decoded(width, height, layerCount, halFormat, producerUsage, consumerUsage, reservedSize, name));
  }

  /**
   * Decoding what was encoded returns every integer, the format as its 32-bit pattern, both usages, and a name that
   * reads as the original cut at its first NUL or at 127 bytes.
   */
  lemma DecodeOfEncode(d: DescriptorInfo)
    requires Representable(d)
    ensures var r := DecodedFrom(Encoded(d));
      && r.width == d.width && r.height == d.height && r.layerCount == d.layerCount
      && r.halFormat == (if d.format >= 0 then d.format else d.format + U32)
      && r.producerUsage == d.usage && r.consumerUsage == d.usage && r.reservedSize == d.reservedSize
      && |r.name| == NAME_BUFFER && Cut(r.name, NAME_BUFFER) == Cut(d.name, MAX_NAME)
  {
    hide Encoded, ToBytes, FromBytes, NameField, Cut;
    EncodedSections(d);
    ReadBack32(d.width);
    ReadBack32(d.height);
    ReadBack32(d.layerCount);
    ReadBack32(Pattern(d.format));
    ReadBack64(d.usage);
    ReadBack64(d.reservedSize);
    NameFieldHoldsCut(d.name);
    LastByteIsZero(d.name);
    SetLast(NameField(d.name));
  }

  lemma ReadBack32(v: nat)
    requires v < U32
    ensures FromBytes(ToBytes(v, 4)) == v
  {
    Pow256Of4();
    RoundTrip(v, 4);
  }

  lemma ReadBack64(v: nat)
    requires v < U64
    ensures FromBytes(ToBytes(v, 8)) == v
  {
    Pow256Of8();
    RoundTrip(v, 8);
  }

  lemma EncodedSections(d: DescriptorInfo)
    ensures var s := Encoded(d);
      && s[0..4] == ToBytes(d.width, 4) && s[4..8] == ToBytes(d.height, 4) && s[8..12] == ToBytes(d.layerCount, 4)
      && s[12..16] == ToBytes(Pattern(d.format), 4) && s[16..24] == ToBytes(d.usage, 8)
      && s[24..32] == ToBytes(d.reservedSize, 8) && s[32..159] == NameField(d.name)[..MAX_NAME]
  {
    hide ToBytes, NameField;
    Sections(ToBytes(d.width, 4), ToBytes(d.height, 4), ToBytes(d.layerCount, 4), ToBytes(Pattern(d.format), 4),
             ToBytes(d.usage, 8), ToBytes(d.reservedSize, 8), NameField(d.name));
  }

  /** A zero last byte may be cut off and set again. */
  lemma SetLast(field: seq<Byte>)
    requires |field| == NAME_BUFFER && field[MAX_NAME] == 0
    ensures field[..MAX_NAME] + [0] == field
  {
  }

  /** Each section of a descriptor is read back where it was written. */
  lemma Sections(a: seq<Byte>, b: seq<Byte>, c: seq<Byte>, d: seq<Byte>, e: seq<Byte>, f: seq<Byte>, g: seq<Byte>)
    requires |a| == |b| == |c| == |d| == 4 && |e| == |f| == 8 && |g| == NAME_BUFFER
    ensures var s := a + b + c + d + e + f + g;
      && |s| == STATIC_SIZE && s[0..4] == a && s[4..8] == b && s[8..12] == c && s[12..16] == d
      && s[16..24] == e && s[24..32] == f && s[32..159] == g[..MAX_NAME]
  {
  }

  lemma LastByteIsZero(name: seq<Byte>)
    ensures NameField(name)[MAX_NAME] == 0
  {
    CutIsPrefix(name, MAX_NAME);
  }

  /** Encoding is lossless up to the name's cut: equal encodings come from equal requests with equal cut names. */
  lemma EncodingIsInjective(d: DescriptorInfo, e: DescriptorInfo)
    requires Representable(d) && Representable(e) && Encoded(d) == Encoded(e)
    ensures d.(name := []) == e.(name := []) && Cut(d.name, MAX_NAME) == Cut(e.name, MAX_NAME)
  {
    DecodeOfEncode(d);
    DecodeOfEncode(e);
    hide Encoded, Cut;
  }
}
