/** The CM messages as bytes: which bits of a management datagram hold the ids
    and queue pair numbers the tracker works with. */
module CmMessages {
  import opened CmTypes
  import opened Words
  import opened ByteOrder
  import opened IbaFields

  /** sizeof(struct ib_mad_hdr); the message tables count from its end. */
  const MAD_HEADER_SIZE: nat := 24

  /** Byte offset of attr_id in the header. */
  const ATTR_ID_OFFSET: nat := 16

  /** CM_FIELD32_LOC */
  function CmField32(byteOffset: nat, width: nat): Field
    requires byteOffset % 4 == 0 && 1 <= width <= 32
  {
    Field32Loc(byteOffset + MAD_HEADER_SIZE, width)
  }

  lemma {:induction false} CmFieldReads(byteOffset: nat, width: nat, mad: seq<byte>)
    requires byteOffset % 4 == 0 && 1 <= width <= 32 && byteOffset + 28 <= |mad| && byteOffset < 256
    ensures CmField32(byteOffset, width).Fits(mad) && CmField32(byteOffset, width).mask > 0
    ensures IbaGet(CmField32(byteOffset, width), mad) == BitsAt(mad, 8 * (byteOffset + 24), width)
  {
    AlignedField32(byteOffset + 24, width);
    GetReadsBits(CmField32(byteOffset, width), 8 * (byteOffset + 24), width, mad);
  }

  lemma {:induction false} BitsAtIsSmall(buf: seq<byte>, s: nat, n: nat)
    requires s + n <= 8 * |buf|
    ensures BitsAt(buf, s, n) < Pow2(n)
  {
    if n > 0 {
      BitsAtIsSmall(buf, s, n - 1);
    }
  }

  /** A field of `n` whole bytes at a table offset is those bytes, big-endian. */
  lemma {:induction false} BytesField(mad: seq<byte>, byteOffset: nat, n: nat)
    requires byteOffset % 4 == 0 && 1 <= n <= 4 && byteOffset + 28 <= |mad| && byteOffset < 256
    ensures CmField32(byteOffset, 8 * n).Fits(mad) && CmField32(byteOffset, 8 * n).mask > 0
    ensures IbaGet(CmField32(byteOffset, 8 * n), mad)
         == Load(Big, mad[byteOffset + 24..byteOffset + 24 + n]) < Pow2(8 * n)
  {
    var o := byteOffset + 24;
    CmFieldReads(byteOffset, 8 * n, mad);
    BytesAsBits(mad, o, n);
    BitsAtIsSmall(mad, 8 * o, 8 * n);
  }

  /** A 32-bit id at a table offset. */
  function ReadId(mad: seq<byte>, byteOffset: nat): (v: u32)
    requires byteOffset % 4 == 0 && byteOffset + 28 <= |mad| && byteOffset < 256
    ensures v == Load(Big, mad[byteOffset + 24..byteOffset + 28])
  {
    BytesField(mad, byteOffset, 4);
    Pow2Values();
    IbaGet(CmField32(byteOffset, 32), mad)
  }

  /** A 24-bit queue pair number: the three bytes at a table offset. */
  function ReadQpn(mad: seq<byte>, byteOffset: nat): (v: u32)
    requires byteOffset % 4 == 0 && byteOffset + 28 <= |mad| && byteOffset < 256
    ensures v == Load(Big, mad[byteOffset + 24..byteOffset + 27]) && v < 0x100_0000
  {
    BytesField(mad, byteOffset, 3);
    Pow2Values();
    IbaGet(CmField32(byteOffset, 24), mad)
  }

  /** A management datagram; its 256 bytes hold every field a handler reads. */
  type Datagram = mad: seq<byte> | |mad| == 256 witness seq(256, i => 0)

  /** The handlers' reads, by attribute id. */
  function Decode(mad: Datagram): (m: Message)
    ensures m.Req? || m.Rep? ==> m.localQpn < 0x100_0000
  {
    var attrId := Load(Big, mad[ATTR_ID_OFFSET..ATTR_ID_OFFSET + 2]);
    if attrId == 0x10 then Req(ReadId(mad, 0), ReadQpn(mad, 32))
    else if attrId == 0x12 then Rej(ReadId(mad, 0), ReadId(mad, 4))
    else if attrId == 0x13 then Rep(ReadId(mad, 0), ReadId(mad, 4), ReadQpn(mad, 12))
    else if attrId == 0x14 then Rtu(ReadId(mad, 0), ReadId(mad, 4))
    else if attrId == 0x15 then Dreq(ReadId(mad, 0), ReadId(mad, 4))
    else if attrId == 0x16 then Drep(ReadId(mad, 0), ReadId(mad, 4))
    else Other
  }

  /** Which bytes of the datagram each handler reads, message by message: ids are
      four bytes, queue pair numbers three, all big-endian. */
  lemma DecodeFollowsTables(mad: Datagram)
    ensures
      var m, attrId := Decode(mad), Load(Big, mad[16..18]);
      && (m.Req? <==> attrId == 0x10) && (m.Rej? <==> attrId == 0x12) && (m.Rep? <==> attrId == 0x13)
      && (m.Rtu? <==> attrId == 0x14) && (m.Dreq? <==> attrId == 0x15) && (m.Drep? <==> attrId == 0x16)
      && (!m.Other? ==> m.localCommId == Load(Big, mad[24..28]))
      && (!m.Other? && !m.Req? ==> m.remoteCommId == Load(Big, mad[28..32]))
      && (m.Req? ==> m.localQpn == Load(Big, mad[56..59]))
      && (m.Rep? ==> m.localQpn == Load(Big, mad[36..39]))
  { }

  /** A packet as it arrives: direction, addresses and datagram bytes. */
  datatype RawPacket = RawPacket(dir: Direction, saddr: u32, daddr: u32, mad: Datagram) {
    function Parse(): Packet {
      Packet(dir, saddr, daddr, Decode(mad))
    }
  }

  /** Where a handler finds the two ids of its packet: the sender's is the first of the
      datagram and the receiver's the second, and the peer's address is the far end's. */
  lemma DatagramNames(raw: RawPacket)
    ensures
      var p, first, second := raw.Parse(), Load(Big, raw.mad[24..28]), Load(Big, raw.mad[28..32]);
      match raw.dir
      case FromHost =>
        && (!p.msg.Other? ==> p.LocalId() == first)
        && (p.msg.Rej? || p.msg.Rep? || p.msg.Drep? ==> p.PeerKey().addr == raw.daddr && p.PeerKey().id == second)
      case FromNet =>
        && (!p.msg.Other? && !p.msg.Req? ==> p.LocalId() == second)
        && (!p.msg.Other? && !p.msg.Rtu? && !p.msg.Dreq? ==> p.PeerKey().addr == raw.saddr && p.PeerKey().id == first)
  {
    DecodeFollowsTables(raw.mad);
  }
}
