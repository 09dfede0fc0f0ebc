/** The datagram format of party-shim/src/wire.rs. Ids are byte strings. */
module Wire {
  import opened SerialNumbers
  import opened Seqs

  datatype Result<T, E> = Ok(value: T) | Err(error: E)
  datatype ParseError = TooShort | BadMagic | BadVersion | BadPayloadLen

  const MAGIC: Bytes := [0x47, 0x42, 0x46, 0x52]
  const MAX_PAYLOAD: nat := 65536

  function HeaderLen(reliable: bool): nat {
    if reliable then 60 else 56
  }

  function Version(reliable: bool): u8 {
    if reliable then 3 else 2
  }

  // ---------------------------------------------------------------------------
  // Fields
  // ---------------------------------------------------------------------------

  function ToLe(n: u32): (b: Bytes)
    ensures |b| == 4
  {
    [n % 256, n / 256 % 256, n / 256 / 256 % 256, n / 256 / 256 / 256]
  }

  function FromLe(b: Bytes): u32
    requires |b| == 4
  {
    var b0: int, b1: int, b2: int, b3: int := b[0], b[1], b[2], b[3];
    ((b3 * 256 + b2) * 256 + b1) * 256 + b0
  }

  lemma LeRoundTrip(n: u32)
    ensures FromLe(ToLe(n)) == n
  {
    var n1, n2 := n / 256, n / 256 / 256;
    assert n == n1 * 256 + n % 256 && n1 == n2 * 256 + n1 % 256;
  }

  function Zeros(n: nat): (z: Bytes)
    ensures |z| == n && forall i | 0 <= i < n :: z[i] == 0
  {
    seq(n, _ => 0)
  }

  /** An id cut to its field, padded with zeros. */
  function Padded(id: Bytes, n: nat): (b: Bytes)
    ensures |b| == n
  {
    Take(id, n) + Zeros(n - |Take(id, n)|)
  }

  function BeforeZero(b: Bytes): Bytes {
    if b == [] || b[0] == 0 then [] else [b[0]] + BeforeZero(b[1..])
  }

  // ---------------------------------------------------------------------------
  // Building
  // ---------------------------------------------------------------------------

  datatype Datagram = Datagram(net: Bytes, entity: Bytes, kind: u8, options: u32, seqno: u32, ack: u32, payload: Bytes)

  // The header, field by field.

  function Head8(d: Datagram, reliable: bool): (b: Bytes)
    ensures |b| == 8
  {
    MAGIC + [d.kind, Version(reliable), 0, 0]
  }

  function Head24(d: Datagram, reliable: bool): (b: Bytes)
    ensures |b| == 24
  {
    Head8(d, reliable) + Padded(d.net, 16)
  }

  function Head44(d: Datagram, reliable: bool): (b: Bytes)
    ensures |b| == 44
  {
    Head24(d, reliable) + Padded(d.entity, 20)
  }

  function Head48(d: Datagram, reliable: bool): (b: Bytes)
    ensures |b| == 48
  {
    Head44(d, reliable) + ToLe(Low32(|d.payload|))
  }

  function Head52(d: Datagram, reliable: bool): (b: Bytes)
    ensures |b| == 52
  {
    Head48(d, reliable) + ToLe(d.options)
  }

  function Head56(d: Datagram, reliable: bool): (b: Bytes)
    ensures |b| == 56
  {
    Head52(d, reliable) + ToLe(d.seqno)
  }

  function Head(d: Datagram, reliable: bool): (b: Bytes)
    ensures |b| == HeaderLen(reliable)
  {
    if reliable then Head56(d, reliable) + ToLe(d.ack) else Head56(d, reliable)
  }

  function Packet(d: Datagram, reliable: bool): (b: Bytes)
    ensures |b| == HeaderLen(reliable) + |d.payload|
  {
    Head(d, reliable) + d.payload
  }

  // ---------------------------------------------------------------------------
  // Reading
  // ---------------------------------------------------------------------------

  datatype Parsed = Parsed(kind: u8, payloadLen: nat, options: u32, seqno: u32, ack: u32)

  function Field(b: Bytes, off: nat, n: nat): Bytes
    requires off + n <= |b|
  {
    b[off..off + n]
  }

  function Parse(b: Bytes, reliable: bool): (r: Result<Parsed, ParseError>)
    ensures r.Ok? ==> HeaderLen(reliable) + r.value.payloadLen <= |b|
  {
    var hdr := HeaderLen(reliable);
    if |b| < hdr then Err(TooShort)
    else if b[..4] != MAGIC then Err(BadMagic)
    else if b[5] != Version(reliable) then Err(BadVersion)
    else
      var n := FromLe(Field(b, 44, 4));
      if n > MAX_PAYLOAD || hdr + n > |b| then Err(BadPayloadLen)
      else Ok(Parsed(b[4], n, FromLe(Field(b, 48, 4)), FromLe(Field(b, 52, 4)), if reliable then FromLe(Field(b, 56, 4)) else 0))
  }

  function Entity(b: Bytes): Bytes {
    if |b| < 44 then [] else BeforeZero(Field(b, 24, 20))
  }

  function NetworkId(b: Bytes): Bytes {
    if |b| < 24 then [] else BeforeZero(Field(b, 8, 16))
  }

  // ---------------------------------------------------------------------------
  // Round trip
  // ---------------------------------------------------------------------------

  /** A field is found where it was appended, whatever follows. */
  lemma FieldThere(head: Bytes, field: Bytes, tail: Bytes)
    ensures Field((head + field) + tail, |head|, |field|) == field
  {
  }

  lemma FieldKept(head: Bytes, tail: Bytes, off: nat, n: nat)
    requires off + n <= |head|
    ensures Field(head + tail, off, n) == Field(head, off, n)
  {
  }

  lemma HeaderFields(d: Datagram, reliable: bool)
    ensures var h := Head56(d, reliable);
            && Field(h, 0, 8) == Head8(d, reliable)
            && Field(h, 8, 16) == Padded(d.net, 16)
            && Field(h, 24, 20) == Padded(d.entity, 20)
            && Field(h, 44, 4) == ToLe(Low32(|d.payload|))
            && Field(h, 48, 4) == ToLe(d.options)
            && Field(h, 52, 4) == ToLe(d.seqno)
  {
    var h24, h44, h48, h52 := Head24(d, reliable), Head44(d, reliable), Head48(d, reliable), Head52(d, reliable);
    FieldThere(h52, ToLe(d.seqno), []);
    FieldThere(h48, ToLe(d.options), ToLe(d.seqno));
    FieldThere(h44, ToLe(Low32(|d.payload|)), ToLe(d.options));
    FieldKept(h52, ToLe(d.seqno), 44, 4);
    FieldKept(h52, ToLe(d.seqno), 24, 20);
    FieldKept(h48, ToLe(d.options), 24, 20);
    FieldThere(h24, Padded(d.entity, 20), ToLe(Low32(|d.payload|)));
    FieldKept(h52, ToLe(d.seqno), 0, 24);
    FieldKept(h48, ToLe(d.options), 0, 24);
    FieldKept(h44, ToLe(Low32(|d.payload|)), 0, 24);
    FieldKept(h24, Padded(d.entity, 20), 0, 24);
    var h := Head56(d, reliable);
    assert Field(h, 0, 24) == h24;
    assert Field(h, 8, 16) == Field(Field(h, 0, 24), 8, 16);
    assert Field(h, 0, 8) == Field(Field(h, 0, 24), 0, 8);
  }

  lemma PacketFields(d: Datagram, reliable: bool, off: nat, n: nat)
    requires off + n <= 56
    ensures Field(Packet(d, reliable), off, n) == Field(Head56(d, reliable), off, n)
  {
    FieldKept(Head(d, reliable), d.payload, off, n);
    if reliable {
      FieldKept(Head56(d, reliable), ToLe(d.ack), off, n);
    }
  }

  /** A datagram of either build reads back as it was built, up to the payload cap; beyond it, up to the
      width of the length field, it is refused. */
  lemma ParsePacket(d: Datagram, reliable: bool)
    requires |d.payload| < 0x1_0000_0000
    ensures Parse(Packet(d, reliable), reliable)
         == if |d.payload| <= MAX_PAYLOAD
            then Ok(Parsed(d.kind, |d.payload|, d.options, d.seqno, if reliable then d.ack else 0))
            else Err(BadPayloadLen)
    ensures Packet(d, reliable)[HeaderLen(reliable)..] == d.payload
  {
    var p := Packet(d, reliable);
    HeaderFields(d, reliable);
    PacketFields(d, reliable, 0, 8);
    PacketFields(d, reliable, 44, 4);
    PacketFields(d, reliable, 48, 4);
    PacketFields(d, reliable, 52, 4);
    LeRoundTrip(Low32(|d.payload|));
    LeRoundTrip(d.options);
    LeRoundTrip(d.seqno);
    LeRoundTrip(d.ack);
    HeadBytes(d, reliable, p);
    if reliable {
      FieldThere(Head56(d, reliable), ToLe(d.ack), d.payload);
    }
  }

  lemma HeadBytes(d: Datagram, reliable: bool, p: Bytes)
    requires |p| >= 8 && Field(p, 0, 8) == Head8(d, reliable)
    ensures p[..4] == MAGIC && p[4] == d.kind && p[5] == Version(reliable)
  {
    assert p[..4] == Field(p, 0, 8)[..4];
    assert p[4] == Field(p, 0, 8)[4] && p[5] == Field(p, 0, 8)[5];
  }

  /** How every datagram starts, padding included. */
  lemma PacketStarts(d: Datagram, reliable: bool)
    ensures var p := Packet(d, reliable);
            p[..4] == MAGIC && p[4] == d.kind && p[5] == Version(reliable) && p[6] == 0 && p[7] == 0
  {
    var p := Packet(d, reliable);
    HeaderFields(d, reliable);
    PacketFields(d, reliable, 0, 8);
    HeadBytes(d, reliable, p);
    assert p[6] == Field(p, 0, 8)[6] && p[7] == Field(p, 0, 8)[7];
  }

  lemma {:induction false} BeforeZeroPadded(id: Bytes, k: nat)
    ensures BeforeZero(id + Zeros(k)) == BeforeZero(id)
  {
    if id != [] {
      assert (id + Zeros(k))[1..] == id[1..] + Zeros(k);
      BeforeZeroPadded(id[1..], k);
    }
  }

  /** The ids come back cut to their fields and at their first NUL. */
  lemma IdsRoundTrip(d: Datagram, reliable: bool)
    ensures NetworkId(Packet(d, reliable)) == BeforeZero(Take(d.net, 16))
    ensures Entity(Packet(d, reliable)) == BeforeZero(Take(d.entity, 20))
  {
    NetworkIdRead(d, reliable);
    EntityRead(d, reliable);
  }

  lemma NetworkIdRead(d: Datagram, reliable: bool)
    ensures NetworkId(Packet(d, reliable)) == BeforeZero(Take(d.net, 16))
  {
    HeaderFields(d, reliable);
    PacketFields(d, reliable, 8, 16);
    BeforeZeroPadded(Take(d.net, 16), 16 - |Take(d.net, 16)|);
  }

  lemma EntityRead(d: Datagram, reliable: bool)
    ensures Entity(Packet(d, reliable)) == BeforeZero(Take(d.entity, 20))
  {
    HeaderFields(d, reliable);
    PacketFields(d, reliable, 24, 20);
    BeforeZeroPadded(Take(d.entity, 20), 20 - |Take(d.entity, 20)|);
  }

  /** No buffer is accepted by both builds. */
  lemma OneVersion(b: Bytes)
    ensures !(Parse(b, true).Ok? && Parse(b, false).Ok?)
  {
  }

  // ---------------------------------------------------------------------------
  // Filling the buffer in place
  // ---------------------------------------------------------------------------

  method CopyInto(a: array<u8>, off: nat, src: Bytes)
    requires off + |src| <= a.Length
    modifies a
    ensures a[..] == old(a[..off]) + src + old(a[off + |src|..])
  {
    var i := 0;
    while i < |src|
      invariant i <= |src|
      invariant forall k | 0 <= k < a.Length :: a[k] == if off <= k < off + i then src[k - off] else old(a[k])
    {
      a[off + i] := src[i];
      i := i + 1;
    }
  }

  /** The buffer is `head` followed by zeros. */
  ghost predicate Filled(a: Bytes, head: Bytes) {
    |head| <= |a| && a == head + Zeros(|a| - |head|)
  }

  /** Copies one field behind the part already filled. */
  method Append(a: array<u8>, off: nat, src: Bytes, ghost head: Bytes)
    requires off == |head| && Filled(a[..], head) && off + |src| <= a.Length
    modifies a
    ensures Filled(a[..], head + src)
  {
    CopyInto(a, off, src);
    assert old(a[..off]) == head;
    assert old(a[off + |src|..]) == Zeros(a.Length - off - |src|);
  }

  /** Zeros already in place pad a field. */
  lemma PadFilled(a: Bytes, head: Bytes, n: nat)
    requires Filled(a, head) && |head| + n <= |a|
    ensures Filled(a, head + Zeros(n))
  {
    assert Zeros(|a| - |head|) == Zeros(n) + Zeros(|a| - |head| - n);
    Assoc(head, Zeros(n), Zeros(|a| - |head| - n));
  }

  method AppendId(a: array<u8>, off: nat, id: Bytes, n: nat, ghost head: Bytes)
    requires off == |head| && Filled(a[..], head) && off + n <= a.Length
    modifies a
    ensures Filled(a[..], head + Padded(id, n))
  {
    var cut := Take(id, n);
    Append(a, off, cut, head);
    PadFilled(a[..], head + cut, n - |cut|);
    Assoc(head, cut, Zeros(n - |cut|));
  }

  method BuildPacket(d: Datagram, reliable: bool) returns (a: array<u8>)
    ensures fresh(a) && a[..] == Packet(d, reliable)
  {
    a := new u8[HeaderLen(reliable) + |d.payload|](_ => 0);
    assert Filled(a[..], []);
    Append(a, 0, MAGIC, []);
    Append(a, 4, [d.kind], [] + MAGIC);
    Append(a, 5, [Version(reliable)], [] + MAGIC + [d.kind]);
    PadFilled(a[..], [] + MAGIC + [d.kind] + [Version(reliable)], 2);
    assert [] + MAGIC + [d.kind] + [Version(reliable)] + Zeros(2) == Head8(d, reliable);
    AppendId(a, 8, d.net, 16, Head8(d, reliable));
    AppendId(a, 24, d.entity, 20, Head24(d, reliable));
    Append(a, 44, ToLe(Low32(|d.payload|)), Head44(d, reliable));
    Append(a, 48, ToLe(d.options), Head48(d, reliable));
    Append(a, 52, ToLe(d.seqno), Head52(d, reliable));
    if reliable {
      Append(a, 56, ToLe(d.ack), Head56(d, reliable));
    }
    Append(a, HeaderLen(reliable), d.payload, Head(d, reliable));
    assert a[..] == Packet(d, reliable) + Zeros(0);
  }

  /** The fields of an accepted buffer are where the format puts them. */
  lemma AcceptedReads(b: Bytes, reliable: bool)
    requires Parse(b, reliable).Ok?
    ensures var r := Parse(b, reliable).value;
            && Field(b, 0, 4) == MAGIC && b[4] == r.kind && b[5] == Version(reliable)
            && Field(b, 44, 4) == ToLe(r.payloadLen) && Field(b, 48, 4) == ToLe(r.options)
            && Field(b, 52, 4) == ToLe(r.seqno) && (reliable ==> Field(b, 56, 4) == ToLe(r.ack))
            && r.payloadLen <= 65536 && HeaderLen(reliable) + r.payloadLen <= |b|
  {
    LeReads(Field(b, 44, 4));
    LeReads(Field(b, 48, 4));
    LeReads(Field(b, 52, 4));
    if reliable { LeReads(Field(b, 56, 4)); }
  }

  lemma LeReads(b: Bytes)
    requires |b| == 4
    ensures ToLe(FromLe(b)) == b
  {
    var n := FromLe(b);
    var b1: int, b2: int, b3: int := b[1], b[2], b[3];
    assert n == ((b3 * 256 + b2) * 256 + b1) * 256 + b[0];
    assert n / 256 == (b3 * 256 + b2) * 256 + b1;
    assert n / 256 / 256 == b3 * 256 + b2;
  }

  /** Every refusal has its reason, looked for in this order. */
  lemma RefusedFor(b: Bytes, reliable: bool)
    requires Parse(b, reliable).Err?
    ensures match Parse(b, reliable).error
            case TooShort => |b| < HeaderLen(reliable)
            case BadMagic => |b| >= HeaderLen(reliable) && b[..4] != MAGIC
            case BadVersion => |b| >= HeaderLen(reliable) && b[..4] == MAGIC && b[5] != Version(reliable)
            case BadPayloadLen => |b| >= HeaderLen(reliable) && b[..4] == MAGIC && b[5] == Version(reliable)
                                  && (FromLe(Field(b, 44, 4)) > 65536 || HeaderLen(reliable) + FromLe(Field(b, 44, 4)) > |b|)
  {
  }
}
