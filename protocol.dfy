/**
 * Packet objects: the generic packet instance that the registry clones, and
 * AddEntityPacket with its fixed-order encoder.
 *
 * DataPacket and BinaryStream are not part of this model; only the part of
 * their behaviour the modelled code relies on is written here: a packet is
 * a byte buffer with a read offset, `setBuffer` replaces both, `reset`
 * restores the buffer to the bytes every encoding starts with, and each
 * `put*` appends a fixed-width big-endian field.
 */
module Protocol {
  import opened Wire
  import opened Php

  /** A packet instance as the registry holds and hands it out. */
  class DataPacket {
    /** The class constant NETWORK_ID of the packet's class. */
    const networkId: Byte
    var buffer: seq<Byte>
    var offset: int

    /** `new $class`: a packet with an empty stream. */
    constructor (networkId: Byte)
      ensures this.networkId == networkId && buffer == [] && offset == 0
    {
      this.networkId := networkId;
      buffer := [];
      offset := 0;
    }

    /** `clone $p`: a new object with the same class and the same fields. */
    constructor Clone(p: DataPacket)
      ensures networkId == p.networkId && buffer == p.buffer && offset == p.offset
    {
      networkId := p.networkId;
      buffer := p.buffer;
      offset := p.offset;
    }

    method SetBuffer(buf: seq<Byte>, off: int)
      modifies this`buffer, this`offset
      ensures buffer == buf && offset == off
    {
      buffer := buf;
      offset := off;
    }
  }

  /** The 32-bit pattern of a float field; no IEEE-754 arithmetic is modelled. */
  type Float32 = x: int | 0 <= x < 0x1_0000_0000

  /** Entity metadata, held as the bytes Binary::writeMetadata produces for it. */
  datatype Metadata = Metadata(written: seq<Byte>)

  function WriteMetadata(m: Metadata): seq<Byte>
  {
    m.written
  }

  /** One entry of `$links`: `[$link[0], $link[1], $link[2]]`. */
  datatype Link = Link(from: int, to: int, linkType: int)

  /** The public fields of an AddEntityPacket, as one value. */
  datatype AddEntity = AddEntity(
    eid: int, entityType: int,
    x: Float32, y: Float32, z: Float32,
    speedX: Float32, speedY: Float32, speedZ: Float32,
    yaw: Float32, pitch: Float32,
    metadata: Metadata, links: seq<Link>)

  function LinkBytes(l: Link): (r: seq<Byte>)
    ensures |r| == 17
  {
    WriteBE(l.from, 8) + WriteBE(l.to, 8) + WriteBE(l.linkType, 1)
  }

  /** The links in iteration order, each as long, long, byte. */
  function LinksBytes(links: seq<Link>): (r: seq<Byte>)
    ensures |r| == 17 * |links|
  {
    if links == [] then []
    else LinksBytes(links[..|links| - 1]) + LinkBytes(links[|links| - 1])
  }

  /** One more link of a list appends its seventeen bytes. */
  lemma LinksBytesPrefix(links: seq<Link>, i: nat)
    requires i < |links|
    ensures LinksBytes(links[..i + 1]) == LinksBytes(links[..i]) + LinkBytes(links[i])
  {
    assert links[..i + 1][..i] == links[..i];
  }

  /**
   * The fixed part before the metadata, as the ten appends `encode`
   * performs: a long, an int and eight floats, 44 bytes.
   */
  function HeadBytes(p: AddEntity): (r: seq<Byte>)
    ensures |r| == 44
  {
    WriteBE(p.eid, 8) + WriteBE(p.entityType, 4)
      + WriteBE(p.x, 4) + WriteBE(p.y, 4) + WriteBE(p.z, 4)
      + WriteBE(p.speedX, 4) + WriteBE(p.speedY, 4) + WriteBE(p.speedZ, 4)
      + WriteBE(p.yaw, 4) + WriteBE(p.pitch, 4)
  }

  /**
   * Everything `encode` appends after `reset`; its length is
   * 8 + 4 + 8 * 4 + |metadata| + 2 + 17 * |links|.
   */
  function Body(p: AddEntity): (r: seq<Byte>)
    ensures |r| == 8 + 4 + 8 * 4 + |p.metadata.written| + 2 + 17 * |p.links|
  {
    HeadBytes(p) + WriteMetadata(p.metadata) + WriteBE(|p.links|, 2) + LinksBytes(p.links)
  }

  /** With no links, the body ends with a zero count and nothing after it. */
  lemma NoLinksBody(p: AddEntity)
    requires p.links == []
    ensures Body(p) == HeadBytes(p) + p.metadata.written + [0, 0]
  {
    assert WriteBE(0, 2) == [0, 0];
  }

  /** Field values that the fixed-width fields can hold without wrapping. */
  predicate InRange(p: AddEntity)
  {
    && -0x8000_0000_0000_0000 <= p.eid < 0x8000_0000_0000_0000
    && -0x8000_0000 <= p.entityType < 0x8000_0000
    && |p.links| < 0x1_0000
    && forall i | 0 <= i < |p.links| :: LinkInRange(p.links[i])
  }

  predicate LinkInRange(l: Link)
  {
    && -0x8000_0000_0000_0000 <= l.from < 0x8000_0000_0000_0000
    && -0x8000_0000_0000_0000 <= l.to < 0x8000_0000_0000_0000
    && 0 <= l.linkType < 0x100
  }

  /** The three parts of a concatenation of three byte strings. */
  lemma Parts(a: seq<Byte>, b: seq<Byte>, c: seq<Byte>)
    ensures (a + b + c)[..|a|] == a
    ensures (a + b + c)[|a|..|a| + |b|] == b
    ensures (a + b + c)[|a| + |b|..] == c
  {
  }

  /** The four parts of a concatenation of four byte strings. */
  lemma Parts4(a: seq<Byte>, b: seq<Byte>, c: seq<Byte>, d: seq<Byte>)
    ensures (a + b + c + d)[..|a|] == a
    ensures (a + b + c + d)[|a|..|a| + |b|] == b
    ensures (a + b + c + d)[|a| + |b|..|a| + |b| + |c|] == c
    ensures (a + b + c + d)[|a| + |b| + |c|..] == d
  {
  }

  function ParseLink(s: seq<Byte>): Link
    requires |s| == 17
  {
    Link(ReadSigned(s[..8]), ReadSigned(s[8..16]), ReadBE(s[16..]))
  }

  function ParseLinks(s: seq<Byte>, count: nat): (r: seq<Link>)
    requires |s| == 17 * count
    ensures |r| == count
  {
    if count == 0 then []
    else
      var cut := 17 * (count - 1);
      ParseLinks(s[..cut], count - 1) + [ParseLink(s[cut..])]
  }

  /** A float field read back as its 32-bit pattern. */
  function ReadFloat(s: seq<Byte>): Float32
    requires |s| == 4
  {
    assert Pow256(4) == 0x1_0000_0000;
    ReadBE(s)
  }

  /** putFloat then reading the four bytes back gives the same bit pattern. */
  lemma FloatRoundTrip(v: Float32)
    ensures ReadFloat(WriteBE(v, 4)) == v
  {
    assert Pow256(4) == 0x1_0000_0000;
    ReadUnsignedWriteBE(v, 4);
  }

  /** The fixed 44-byte part read back, with the metadata and links already read. */
  function ParseHead(h: seq<Byte>, metadata: Metadata, links: seq<Link>): (r: AddEntity)
    requires |h| == 44
    ensures r.metadata == metadata && r.links == links
  {
    AddEntity(ReadSigned(h[..8]), ReadSigned(h[8..12]),
              ReadFloat(h[12..16]), ReadFloat(h[16..20]), ReadFloat(h[20..24]),
              ReadFloat(h[24..28]), ReadFloat(h[28..32]), ReadFloat(h[32..36]),
              ReadFloat(h[36..40]), ReadFloat(h[40..44]),
              metadata, links)
  }

  /**
   * A reader for the layout `encode` writes, given the metadata's length
   * (the metadata format is not part of this model). The source's own
   * `decode` is empty; this reader is the reference the encoder is checked
   * against.
   */
  function ParseBody(s: seq<Byte>, metaLen: nat): (r: Option<AddEntity>)
    ensures r.Some? ==> |s| == 44 + metaLen + 2 + 17 * |r.value.links|
    ensures r.Some? ==> |r.value.metadata.written| == metaLen
  {
    var m := 44 + metaLen;
    if |s| < m + 2 then None
    else
      var count := ReadBE(s[m..m + 2]);
      if |s| != m + 2 + 17 * count then None
      else Some(ParseHead(s[..44], Metadata(s[44..m]), ParseLinks(s[m + 2..], count)))
  }

  lemma LinkRoundTrip(l: Link)
    requires LinkInRange(l)
    ensures ParseLink(LinkBytes(l)) == l
  {
    assert Pow256(8) == 0x1_0000_0000_0000_0000 && Pow256(1) == 0x100;
    Parts(WriteBE(l.from, 8), WriteBE(l.to, 8), WriteBE(l.linkType, 1));
    ReadSignedWriteBE(l.from, 8);
    ReadSignedWriteBE(l.to, 8);
    ReadUnsignedWriteBE(l.linkType, 1);
  }

  /** The links read back in the order they were written. */
  lemma {:induction false} LinksRoundTrip(links: seq<Link>)
    requires forall i | 0 <= i < |links| :: LinkInRange(links[i])
    ensures ParseLinks(LinksBytes(links), |links|) == links
  {
    if links != [] {
      var n := |links| - 1;
      var front := links[..n];
      LinksRoundTrip(front);
      LinkRoundTrip(links[n]);
      LinksCut(links);
      LastSplit(links);
    }
  }

  /** A non-empty list is its front followed by its last element. */
  lemma LastSplit<T>(s: seq<T>)
    requires s != []
    ensures s == s[..|s| - 1] + [s[|s| - 1]]
  {
  }

  /** The bytes of all links but the last, then the bytes of the last. */
  lemma LinksCut(links: seq<Link>)
    requires links != []
    ensures ParseLinks(LinksBytes(links), |links|)
      == ParseLinks(LinksBytes(links[..|links| - 1]), |links| - 1) + [ParseLink(LinkBytes(links[|links| - 1]))]
  {
    var n := |links| - 1;
    var s := LinksBytes(links);
    assert s[..17 * n] == LinksBytes(links[..n]);
    assert s[17 * n..] == LinkBytes(links[n]);
  }

  /** A prefix of h that ends in f: f is where it stands in h. */
  lemma Field(h: seq<Byte>, front: seq<Byte>, f: seq<Byte>)
    requires |front| + |f| <= |h| && h[..|front| + |f|] == front + f
    ensures h[..|front|] == front && h[|front|..|front| + |f|] == f
  {
    assert h[..|front|] == (front + f)[..|front|];
    assert h[|front|..|front| + |f|] == (front + f)[|front|..];
  }

  lemma HeadRoundTrip(p: AddEntity)
    requires InRange(p)
    ensures ParseHead(HeadBytes(p), p.metadata, p.links) == p
  {
    assert Pow256(8) == 0x1_0000_0000_0000_0000;
    HeadSlices(p);
    ReadSignedWriteBE(p.eid, 8);
    ReadSignedWriteBE(p.entityType, 4);
    FloatRoundTrip(p.x);
    FloatRoundTrip(p.y);
    FloatRoundTrip(p.z);
    FloatRoundTrip(p.speedX);
    FloatRoundTrip(p.speedY);
    FloatRoundTrip(p.speedZ);
    FloatRoundTrip(p.yaw);
    FloatRoundTrip(p.pitch);
  }

  /** Where each of the ten fields stands in the head. */
  lemma HeadSlices(p: AddEntity)
    ensures var h := HeadBytes(p);
      && h[..8] == WriteBE(p.eid, 8) && h[8..12] == WriteBE(p.entityType, 4)
      && h[12..16] == WriteBE(p.x, 4) && h[16..20] == WriteBE(p.y, 4) && h[20..24] == WriteBE(p.z, 4)
      && h[24..28] == WriteBE(p.speedX, 4) && h[28..32] == WriteBE(p.speedY, 4)
      && h[32..36] == WriteBE(p.speedZ, 4) && h[36..40] == WriteBE(p.yaw, 4)
      && h[40..44] == WriteBE(p.pitch, 4)
  {
    var h := HeadBytes(p);
    var a0 := WriteBE(p.eid, 8);
    var a1 := a0 + WriteBE(p.entityType, 4);
    var a2 := a1 + WriteBE(p.x, 4);
    var a3 := a2 + WriteBE(p.y, 4);
    var a4 := a3 + WriteBE(p.z, 4);
    var a5 := a4 + WriteBE(p.speedX, 4);
    var a6 := a5 + WriteBE(p.speedY, 4);
    var a7 := a6 + WriteBE(p.speedZ, 4);
    var a8 := a7 + WriteBE(p.yaw, 4);
    assert h[..44] == h;
    Field(h, a8, WriteBE(p.pitch, 4));
    Field(h, a7, WriteBE(p.yaw, 4));
    Field(h, a6, WriteBE(p.speedZ, 4));
    Field(h, a5, WriteBE(p.speedY, 4));
    Field(h, a4, WriteBE(p.speedX, 4));
    Field(h, a3, WriteBE(p.z, 4));
    Field(h, a2, WriteBE(p.y, 4));
    Field(h, a1, WriteBE(p.x, 4));
    Field(h, a0, WriteBE(p.entityType, 4));
  }

  /**
   * The encoded body determines every field: reading the fixed layout back
   * yields the packet that was encoded. So the fields stand in the order
   * eid, type, x, y, z, speedX, speedY, speedZ, yaw, pitch, metadata,
   * count, links, and the count short is the number of links.
   */
  lemma BodyRoundTrip(p: AddEntity)
    requires InRange(p)
    ensures ParseBody(Body(p), |p.metadata.written|) == Some(p)
  {
    var s, meta := Body(p), p.metadata.written;
    var m := 44 + |meta|;
    Parts4(HeadBytes(p), meta, WriteBE(|p.links|, 2), LinksBytes(p.links));
    assert Pow256(2) == 0x1_0000;
    ReadUnsignedWriteBE(|p.links|, 2);
    LinksRoundTrip(p.links);
    HeadRoundTrip(p);
    assert ParseBody(s, |meta|) == Some(ParseHead(s[..44], Metadata(s[44..m]), ParseLinks(s[m + 2..], |p.links|)));
  }

  /**
   * The count short holds the number of links modulo 2^16: a list of 65536
   * links or more is written in full but counted with a wrapped short.
   */
  lemma CountField(p: AddEntity)
    ensures var m := 44 + |p.metadata.written|;
      ReadBE(Body(p)[m..m + 2]) == |p.links| % 65536
  {
    Parts4(HeadBytes(p), p.metadata.written, WriteBE(|p.links|, 2), LinksBytes(p.links));
    ReadWriteBE(|p.links|, 2);
    assert Pow256(2) == 65536;
  }

  class AddEntityPacket {
    /** What DataPacket::reset leaves in the buffer (not part of this model). */
    const resetBytes: seq<Byte>
    var buffer: seq<Byte>
    var offset: int

    var eid: int
    var entityType: int
    var x: Float32
    var y: Float32
    var z: Float32
    var speedX: Float32
    var speedY: Float32
    var speedZ: Float32
    var yaw: Float32
    var pitch: Float32
    var metadata: Metadata
    var links: seq<Link>

    /** A packet whose public fields the caller has filled in; `links` defaults to empty. */
    constructor (resetBytes: seq<Byte>, eid: int, entityType: int,
                 x: Float32, y: Float32, z: Float32,
                 speedX: Float32, speedY: Float32, speedZ: Float32,
                 yaw: Float32, pitch: Float32, metadata: Metadata)
      ensures this.resetBytes == resetBytes && buffer == [] && offset == 0
      ensures Fields() == AddEntity(eid, entityType, x, y, z, speedX, speedY, speedZ,
                                    yaw, pitch, metadata, [])
    {
      this.resetBytes := resetBytes;
      buffer, offset := [], 0;
      this.eid, this.entityType := eid, entityType;
      this.x, this.y, this.z := x, y, z;
      this.speedX, this.speedY, this.speedZ := speedX, speedY, speedZ;
      this.yaw, this.pitch := yaw, pitch;
      this.metadata := metadata;
      links := [];
    }

    ghost function Fields(): AddEntity
      reads this
    {
      AddEntity(eid, entityType, x, y, z, speedX, speedY, speedZ, yaw, pitch, metadata, links)
    }

    method Reset()
      modifies this`buffer, this`offset
      ensures buffer == resetBytes && offset == 0
    {
      buffer, offset := resetBytes, 0;
    }

    method Put(bytes: seq<Byte>)
      modifies this`buffer
      ensures buffer == old(buffer) + bytes
    {
      buffer := buffer + bytes;
    }

    method PutLong(v: int)
      modifies this`buffer
      ensures buffer == old(buffer) + WriteBE(v, 8)
    {
      buffer := buffer + WriteBE(v, 8);
    }

    method PutInt(v: int)
      modifies this`buffer
      ensures buffer == old(buffer) + WriteBE(v, 4)
    {
      buffer := buffer + WriteBE(v, 4);
    }

    method PutFloat(v: Float32)
      modifies this`buffer
      ensures buffer == old(buffer) + WriteBE(v, 4)
    {
      buffer := buffer + WriteBE(v, 4);
    }

    method PutShort(v: int)
      modifies this`buffer
      ensures buffer == old(buffer) + WriteBE(v, 2)
    {
      buffer := buffer + WriteBE(v, 2);
    }

    method PutByte(v: int)
      modifies this`buffer
      ensures buffer == old(buffer) + WriteBE(v, 1)
    {
      buffer := buffer + WriteBE(v, 1);
    }

    /** The source's `decode` is empty: nothing changes. */
    method Decode()
      ensures unchanged(this)
    {
    }

    /**
     * Reset, then append every field in the fixed order. The buffer ends up
     * as the reset bytes followed by Body(Fields()) whatever it held before,
     * so encoding twice yields the same buffer; only `buffer` and `offset`
     * may change.
     */
    method Encode()
      modifies this`buffer, this`offset
      ensures buffer == resetBytes + Body(Fields())
      ensures offset == 0
    {
      Reset();
      PutHead();
      ghost var h := HeadBytes(Fields());
      Put(WriteMetadata(metadata));
      AppendAssoc(resetBytes, h, WriteMetadata(metadata));
      ghost var hm := h + WriteMetadata(metadata);
      PutShort(|links|);
      AppendAssoc(resetBytes, hm, WriteBE(|links|, 2));
      ghost var hmc := hm + WriteBE(|links|, 2);
      PutLinks();
      AppendAssoc(resetBytes, hmc, LinksBytes(links));
    }

    /** The entity id, its type and the eight floats, in the source's order. */
    method PutHead()
      modifies this`buffer
      ensures buffer == old(buffer) + HeadBytes(Fields())
    {
      PutLong(eid);
      ghost var w := WriteBE(eid, 8);
      PutInt(entityType);
      AppendAssoc(old(buffer), w, WriteBE(entityType, 4)); w := w + WriteBE(entityType, 4);
      assert buffer == old(buffer) + w;
      PutFloat(x);
      AppendAssoc(old(buffer), w, WriteBE(x, 4)); w := w + WriteBE(x, 4);
      assert buffer == old(buffer) + w;
      PutFloat(y);
      AppendAssoc(old(buffer), w, WriteBE(y, 4)); w := w + WriteBE(y, 4);
      assert buffer == old(buffer) + w;
      PutFloat(z);
      AppendAssoc(old(buffer), w, WriteBE(z, 4)); w := w + WriteBE(z, 4);
      assert buffer == old(buffer) + w;
      PutFloat(speedX);
      AppendAssoc(old(buffer), w, WriteBE(speedX, 4)); w := w + WriteBE(speedX, 4);
      assert buffer == old(buffer) + w;
      PutFloat(speedY);
      AppendAssoc(old(buffer), w, WriteBE(speedY, 4)); w := w + WriteBE(speedY, 4);
      assert buffer == old(buffer) + w;
      PutFloat(speedZ);
      AppendAssoc(old(buffer), w, WriteBE(speedZ, 4)); w := w + WriteBE(speedZ, 4);
      assert buffer == old(buffer) + w;
      PutFloat(yaw);
      AppendAssoc(old(buffer), w, WriteBE(yaw, 4)); w := w + WriteBE(yaw, 4);
      assert buffer == old(buffer) + w;
      PutFloat(pitch);
      AppendAssoc(old(buffer), w, WriteBE(pitch, 4)); w := w + WriteBE(pitch, 4);
      assert buffer == old(buffer) + w;
    }

    /** The foreach over `$links`: each link as long, long, byte, in order. */
    method PutLinks()
      modifies this`buffer
      ensures buffer == old(buffer) + LinksBytes(links)
    {
      for i := 0 to |links|
        invariant buffer == old(buffer) + LinksBytes(links[..i])
      {
        PutLink(links[i]);
        AppendAssoc(old(buffer), LinksBytes(links[..i]), LinkBytes(links[i]));
        LinksBytesPrefix(links, i);
      }
      assert links[..|links|] == links;
    }

    /** One link: long, long, byte. */
    method PutLink(link: Link)
      modifies this`buffer
      ensures buffer == old(buffer) + LinkBytes(link)
    {
      PutLong(link.from);
      PutLong(link.to);
      PutByte(link.linkType);
    }
  }
}
