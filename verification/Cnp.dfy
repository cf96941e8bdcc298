/** Congestion notification packets: the template, and its completion for one
    queue pair with the invariant CRC (ICRC) of RoCE v2.

    The CRC algorithm itself is a parameter. */
module Cnp {
  import opened CmTypes
  import opened Words
  import opened ByteOrder
  import BitFields
  import Bth

  const IP_LENGTH: nat := 20
  const UDP_LENGTH: nat := 8
  const BTH_LENGTH: nat := 12
  const CNP_LENGTH: nat := 16
  const ICRC_LENGTH: nat := 4

  /** IP and UDP headers, BTH, the 16 reserved bytes and the ICRC. */
  const PACKET_LENGTH: nat := 60

  /** The packet without the ICRC, which is what the ICRC covers. */
  const COVERED_LENGTH: nat := 56

  // ---- The pseudo packet ----

  /** The covered bytes behind eight bytes of ones, with the fields that may
      change on the way replaced by ones. */
  function PseudoPacket(p: seq<byte>): (r: seq<byte>)
    requires |p| == COVERED_LENGTH
    ensures |r| == 64
  {
    var e := MaskedHeaders(p);
    Overwrite(e, 8 + 28 + 4, MaskedQpnWord(e[8 + 28 + 4..8 + 28 + 8]))
  }

  /** IP checksum, TTL and TOS, then the UDP checksum. */
  function MaskedHeaders(p: seq<byte>): (r: seq<byte>)
    requires |p| == COVERED_LENGTH
    ensures |r| == 64
  {
    var a := seq(8, i => 0xff) + p;
    var b := Overwrite(a, 8 + 10, [0xff, 0xff]);
    var c := Overwrite(b, 8 + 8, [0xff]);
    var d := Overwrite(c, 8 + 1, [0xff]);
    Overwrite(d, 8 + 20 + 6, [0xff, 0xff])
  }

  /** htonl(FECN | BECN | RESV6A | qpn) */
  function MaskedQpnWord(w: Bth.QpnWord): Bth.QpnWord {
    Store(Big, Or(Or(Or(Bth.FECN_MASK, Bth.BECN_MASK), Bth.RESV6A_MASK), Bth.GetQpn(w)), 4)
  }

  // ---- Completing a packet ----

  type Crc = seq<byte> -> u32

  /** ctcm_generate_cnp on the bytes `s`, with the IP header at `ip` and the BTH at
      `bth`; the ICRC is stored in the host's byte order. */
  function Generate(s: seq<byte>, ip: nat, bth: nat, qpn: u32, crc: Crc, host: Order): (r: seq<byte>)
    requires ip + COVERED_LENGTH <= |s| && bth + 32 <= |s|
    ensures |r| == |s|
  {
    WithIcrc(WithQpn(s, bth, qpn), ip, bth, crc, host)
  }

  function WithQpn(s: seq<byte>, bth: nat, qpn: u32): (r: seq<byte>)
    requires bth + 32 <= |s|
    ensures |r| == |s|
  {
    Overwrite(s, bth + 4, Bth.SetQpn(s[bth + 4..bth + 8], qpn))
  }

  function WithIcrc(s: seq<byte>, ip: nat, bth: nat, crc: Crc, host: Order): (r: seq<byte>)
    requires ip + COVERED_LENGTH <= |s| && bth + 32 <= |s|
    ensures |r| == |s|
  {
    Overwrite(s, bth + BTH_LENGTH + CNP_LENGTH, Store(host, crc(PseudoPacket(s[ip..ip + COVERED_LENGTH])), 4))
  }

  /** The two bits of DPDK's packet type that the library sets and tests. */
  const PTYPE_L3_IPV4: nat := 0x10
  const PTYPE_L4_UDP: nat := 0x200

  predicate IsIpv4(packetType: nat) {
    And(packetType, PTYPE_L3_IPV4) != 0
  }

  class Mbuf {
    const buf: array<byte>
    var packetType: nat
    var dataLength: nat
    var l2Length: nat
    var l3Length: nat
    var l4Length: nat

    constructor (buf: array<byte>)
      ensures this.buf == buf && packetType == dataLength == l2Length == l3Length == l4Length == 0
    {
      this.buf := buf;
      packetType, dataLength, l2Length, l3Length, l4Length := 0, 0, 0, 0, 0;
    }
  }

  /** ctcm_generate_cnp. The first two preconditions are the asserts of mbuf_ip and
      mbuf_bth. */
  method GenerateCnp(cnp: Mbuf, qpn: u32, crc: Crc, host: Order)
    requires IsIpv4(cnp.packetType)
    requires cnp.l3Length != 0 && cnp.l4Length != 0
    requires cnp.l2Length + COVERED_LENGTH <= cnp.buf.Length
    requires cnp.l2Length + cnp.l3Length + cnp.l4Length + 32 <= cnp.buf.Length
    modifies cnp.buf
    ensures cnp.buf[..] ==
      Generate(old(cnp.buf[..]), cnp.l2Length, cnp.l2Length + cnp.l3Length + cnp.l4Length, qpn, crc, host)
  {
    var ip, bth := cnp.l2Length, cnp.l2Length + cnp.l3Length + cnp.l4Length;
    GenerateAt(cnp.buf, ip, bth, qpn, crc, host);
    assert ip == cnp.l2Length && bth == cnp.l2Length + cnp.l3Length + cnp.l4Length;
  }

  method GenerateAt(buf: array<byte>, ip: nat, bth: nat, qpn: u32, crc: Crc, host: Order)
    requires ip + COVERED_LENGTH <= buf.Length && bth + 32 <= buf.Length
    modifies buf
    ensures buf[..] == Generate(old(buf[..]), ip, bth, qpn, crc, host)
  {
    StampQpn(buf, bth, qpn);
    StampIcrc(buf, ip, bth, crc, host);
  }

  method StampQpn(buf: array<byte>, bth: nat, qpn: u32)
    requires bth + 32 <= buf.Length
    modifies buf
    ensures buf[..] == WithQpn(old(buf[..]), bth, qpn)
  {
    assert buf[..][bth + 4..bth + 8] == buf[bth + 4..bth + 8];
    Bth.SetQpnInPlace(buf, bth, qpn);
  }

  method StampIcrc(buf: array<byte>, ip: nat, bth: nat, crc: Crc, host: Order)
    requires ip + COVERED_LENGTH <= buf.Length && bth + 32 <= buf.Length
    modifies buf
    ensures buf[..] == WithIcrc(old(buf[..]), ip, bth, crc, host)
  {
    assert buf[..][ip..ip + COVERED_LENGTH] == buf[ip..ip + COVERED_LENGTH];
    var icrc := ComputeIcrc(buf, ip, crc);
    WriteWord(buf, bth + BTH_LENGTH + CNP_LENGTH, Store(host, icrc, 4));
  }

  /** The local pseudo packet, and the CRC over it. */
  method ComputeIcrc(buf: array<byte>, ip: nat, crc: Crc) returns (icrc: u32)
    requires ip + COVERED_LENGTH <= buf.Length
    ensures icrc == crc(PseudoPacket(buf[ip..ip + COVERED_LENGTH]))
  {
    var p := buf[ip..ip + COVERED_LENGTH];
    var phdr := new byte[64](i => 0xff);
    WriteWord(phdr, 8, p);
    assert phdr[..] == seq(8, i => 0xff) + p;
    MaskVariantFields(phdr, p);
    icrc := crc(phdr[..]);
  }

  /** The assignments to the pseudo packet's fields. */
  method MaskVariantFields(phdr: array<byte>, ghost p: seq<byte>)
    requires |p| == COVERED_LENGTH && phdr[..] == seq(8, i => 0xff) + p
    modifies phdr
    ensures phdr[..] == PseudoPacket(p)
  {
    WriteWord(phdr, 8 + 10, [0xff, 0xff]);
    WriteWord(phdr, 8 + 8, [0xff]);
    WriteWord(phdr, 8 + 1, [0xff]);
    WriteWord(phdr, 8 + 20 + 6, [0xff, 0xff]);
    assert phdr[..][8 + 28 + 4..8 + 28 + 8] == phdr[8 + 28 + 4..8 + 28 + 8];
    var w: Bth.QpnWord := phdr[8 + 28 + 4..8 + 28 + 8];
    WriteWord(phdr, 8 + 28 + 4, MaskedQpnWord(w));
  }

  // ---- What the ICRC covers ----

  lemma {:induction false} MaskedBit(q: nat, i: nat)
    requires q < Pow2(24)
    ensures Bit(Or(Or(Or(Bth.FECN_MASK, Bth.BECN_MASK), Bth.RESV6A_MASK), q), i) == (24 <= i < 32 || Bit(q, i))
  {
    Bth.MaskValues();
    var a := Or(Bth.FECN_MASK, Bth.BECN_MASK);
    OrBit(Or(a, Bth.RESV6A_MASK), q, i);
    OrBit(a, Bth.RESV6A_MASK, i);
    OrBit(Bth.FECN_MASK, Bth.BECN_MASK, i);
    BitFields.MaskBit(Bth.FECN_MASK, 31, 31, i);
    BitFields.MaskBit(Bth.BECN_MASK, 30, 30, i);
    BitFields.MaskBit(Bth.RESV6A_MASK, 29, 24, i);
  }

  lemma {:induction false} MaskedLoadBit(w: Bth.QpnWord, i: nat)
    ensures Bit(Load(Big, [0xff] + w[1..]), i) == (24 <= i < 32 || Bit(Load(Big, w[1..]), i))
  {
    LoadBit(Big, [0xff] + w[1..], i);
    LoadBit(Big, w[1..], i);
    if 24 <= i < 32 {
      Pow2Values();
      OnesBit(8, i % 8);
    }
  }

  /** The masked word is a byte of ones and the QPN's three bytes. */
  lemma MaskedBytes(w: Bth.QpnWord)
    ensures MaskedQpnWord(w) == [0xff] + w[1..]
  {
    var bs := [0xff] + w[1..];
    var q := Bth.GetQpn(w);
    Bth.GetQpnBytes(w);
    LoadIsSmall(Big, w[1..]);
    var x := Or(Or(Or(Bth.FECN_MASK, Bth.BECN_MASK), Bth.RESV6A_MASK), q);
    forall i: nat
      ensures Bit(x, i) == Bit(Load(Big, bs), i)
    {
      MaskedBit(q, i);
      MaskedLoadBit(w, i);
    }
    SameBits(x, Load(Big, bs));
    StoreLoad(Big, bs);
  }

  /** The covered bytes that are replaced by ones: TOS, TTL, the IP and UDP
      checksums, and the byte with FECN, BECN and the reserved bits. */
  predicate Variant(i: nat) {
    i == 1 || i == 8 || i == 10 || i == 11 || i == 26 || i == 27 || i == 32
  }

  lemma PseudoByte(p: seq<byte>, i: nat)
    requires |p| == COVERED_LENGTH && i < 64
    ensures PseudoPacket(p)[i] == if i < 8 || Variant(i - 8) then 0xff else p[i - 8]
  {
    MaskedHeaderByte(p, i);
    var e := MaskedHeaders(p);
    var w: Bth.QpnWord := e[8 + 28 + 4..8 + 28 + 8];
    MaskedBytes(w);
    LastMaskByte(e, i);
  }

  lemma MaskedHeaderByte(p: seq<byte>, i: nat)
    requires |p| == COVERED_LENGTH && i < 64
    ensures MaskedHeaders(p)[i] == if i < 8 || (Variant(i - 8) && i != 40) then 0xff else p[i - 8]
  { }

  lemma LastMaskByte(e: seq<byte>, i: nat)
    requires |e| == 64 && i < 64
    ensures Overwrite(e, 40, [0xff] + e[40..44][1..])[i] == if i == 40 then 0xff else e[i]
  { }

  /** Packets that agree on all other covered bytes have the same pseudo packet. */
  lemma PseudoIgnoresVariant(p: seq<byte>, p': seq<byte>)
    requires |p| == |p'| == COVERED_LENGTH
    requires forall i :: 0 <= i < COVERED_LENGTH && !Variant(i) ==> p[i] == p'[i]
    ensures PseudoPacket(p) == PseudoPacket(p')
  {
    forall i: nat | i < 64
      ensures PseudoPacket(p)[i] == PseudoPacket(p')[i]
    {
      PseudoByte(p, i);
      PseudoByte(p', i);
    }
  }

  // ---- A correctly laid out packet: 20-byte IP header, 8-byte UDP header ----

  /** ctcm_generate_cnp with the IP header at `ip` and the BTH right behind UDP. */
  function Complete(s: seq<byte>, ip: nat, qpn: u32, crc: Crc, host: Order): (r: seq<byte>)
    requires ip + PACKET_LENGTH <= |s|
    ensures |r| == |s|
  {
    Generate(s, ip, ip + IP_LENGTH + UDP_LENGTH, qpn, crc, host)
  }

  /** The bytes of the QPN in the packet, and of the ICRC. */
  predicate Written(i: int) {
    33 <= i < 36 || 56 <= i < 60
  }

  function Icrc(s: seq<byte>, ip: nat, qpn: u32, crc: Crc): u32
    requires ip + PACKET_LENGTH <= |s|
  {
    crc(PseudoPacket(s[ip..ip + 33] + Store(Big, qpn, 3) + s[ip + 36..ip + COVERED_LENGTH]))
  }

  /** `s` with the three QPN bytes and the four ICRC bytes replaced. */
  function Patch(s: seq<byte>, ip: nat, q: seq<byte>, c: seq<byte>): (r: seq<byte>)
    requires ip + PACKET_LENGTH <= |s| && |q| == 3 && |c| == 4
    ensures |r| == |s|
  {
    s[..ip + 33] + q + s[ip + 36..ip + 56] + c + s[ip + 60..]
  }

  lemma PatchTwice(s: seq<byte>, ip: nat, q: seq<byte>, c: seq<byte>, q': seq<byte>, c': seq<byte>)
    requires ip + PACKET_LENGTH <= |s| && |q| == |q'| == 3 && |c| == |c'| == 4
    ensures
      var t := Patch(s, ip, q, c);
      Patch(t, ip, q', c') == Patch(s, ip, q', c') &&
      t[ip..ip + 33] == s[ip..ip + 33] && t[ip + 36..ip + 56] == s[ip + 36..ip + 56]
  { }

  /** Every byte of the completed packet: the low 24 bits of the QPN, the ICRC, and
      nothing else. */
  lemma {:induction false} CompletedBytes(s: seq<byte>, ip: nat, qpn: u32, crc: Crc, host: Order)
    requires ip + PACKET_LENGTH <= |s|
    ensures Complete(s, ip, qpn, crc, host) == Patch(s, ip, Store(Big, qpn, 3), Store(host, Icrc(s, ip, qpn, crc), 4))
  {
    var w: Bth.QpnWord := s[ip + 32..ip + 36];
    Bth.SetQpnBytes(w, qpn);
    QpnStamped(s, ip, Store(Big, qpn, 3));
    IcrcStamped(s, ip, Store(Big, qpn, 3), Store(host, Icrc(s, ip, qpn, crc), 4));
  }

  lemma QpnStamped(s: seq<byte>, ip: nat, q: seq<byte>)
    requires ip + PACKET_LENGTH <= |s| && |q| == 3
    ensures
      var t := Overwrite(s, ip + 32, [s[ip + 32..ip + 36][0]] + q);
      t == s[..ip + 33] + q + s[ip + 36..] &&
      t[ip..ip + COVERED_LENGTH] == s[ip..ip + 33] + q + s[ip + 36..ip + COVERED_LENGTH]
  { }

  lemma IcrcStamped(s: seq<byte>, ip: nat, q: seq<byte>, c: seq<byte>)
    requires ip + PACKET_LENGTH <= |s| && |q| == 3 && |c| == 4
    ensures Overwrite(s[..ip + 33] + q + s[ip + 36..], ip + 56, c) == Patch(s, ip, q, c)
  { }

  /** Everything outside the QPN's three bytes and the ICRC stays. */
  lemma CompletionFrame(s: seq<byte>, ip: nat, qpn: u32, crc: Crc, host: Order, i: nat)
    requires ip + PACKET_LENGTH <= |s| && i < |s| && !Written(i - ip)
    ensures Complete(s, ip, qpn, crc, host)[i] == s[i]
  {
    CompletedBytes(s, ip, qpn, crc, host);
  }

  /** A template can be completed again and again: only the last QPN shows. */
  lemma TemplateIsReusable(s: seq<byte>, ip: nat, a: u32, b: u32, crc: Crc, host: Order)
    requires ip + PACKET_LENGTH <= |s|
    ensures Complete(Complete(s, ip, a, crc, host), ip, b, crc, host) == Complete(s, ip, b, crc, host)
  {
    var t := Complete(s, ip, a, crc, host);
    CompletedBytes(s, ip, a, crc, host);
    CompletedBytes(t, ip, b, crc, host);
    CompletedBytes(s, ip, b, crc, host);
    PatchTwice(s, ip, Store(Big, a, 3), Store(host, Icrc(s, ip, a, crc), 4),
               Store(Big, b, 3), Store(host, Icrc(t, ip, b, crc), 4));
  }

  /** The ICRC depends on no variant byte, not on the old QPN or the old ICRC, and
      not on more than the low 24 bits of the new QPN. */
  lemma IcrcIgnoresVariant(s: seq<byte>, t: seq<byte>, ip: nat, a: u32, b: u32, crc: Crc)
    requires ip + PACKET_LENGTH <= |s| && ip + PACKET_LENGTH <= |t|
    requires forall i :: 0 <= i < PACKET_LENGTH && !Variant(i) && !Written(i) ==> s[ip + i] == t[ip + i]
    requires a % 0x100_0000 == b % 0x100_0000
    ensures Icrc(s, ip, a, crc) == Icrc(t, ip, b, crc)
  {
    SameLowBytes(a, b);
    var p := s[ip..ip + 33] + Store(Big, a, 3) + s[ip + 36..ip + COVERED_LENGTH];
    var p' := t[ip..ip + 33] + Store(Big, b, 3) + t[ip + 36..ip + COVERED_LENGTH];
    PseudoIgnoresVariant(p, p');
  }

  lemma {:induction false} SameLowBytes(a: nat, b: nat)
    requires a % 0x100_0000 == b % 0x100_0000
    ensures Store(Big, a, 3) == Store(Big, b, 3)
  {
    ThreeBytes(a);
    ThreeBytes(b);
    StoreLoad(Big, Store(Big, a, 3));
    StoreLoad(Big, Store(Big, b, 3));
  }

  lemma PatchedWord(s: seq<byte>, ip: nat, q: seq<byte>, c: seq<byte>)
    requires ip + PACKET_LENGTH <= |s| && |q| == 3 && |c| == 4
    ensures Patch(s, ip, q, c)[ip + 32] == s[ip + 32] && Patch(s, ip, q, c)[ip + 32..ip + 36][1..] == q
  { }

  /** The completed packet's QPN word: the requested QPN reads back through the
      header accessors, and FECN, BECN and the reserved bits are untouched. */
  lemma CompletedQpn(s: seq<byte>, ip: nat, qpn: u32, crc: Crc, host: Order)
    requires ip + PACKET_LENGTH <= |s|
    ensures
      var r := Complete(s, ip, qpn, crc, host);
      Bth.GetQpn(r[ip + 32..ip + 36]) == qpn % 0x100_0000 && r[ip + 32] == s[ip + 32]
  {
    CompletedBytes(s, ip, qpn, crc, host);
    PatchedWord(s, ip, Store(Big, qpn, 3), Store(host, Icrc(s, ip, qpn, crc), 4));
    Bth.GetQpnBytes(Complete(s, ip, qpn, crc, host)[ip + 32..ip + 36]);
    ThreeBytes(qpn);
  }

  /** The stored ICRC is the CRC over the packet as it stands, behind the prefix of
      ones and with the variant fields masked: what a receiver checks. */
  predicate IcrcHolds(s: seq<byte>, ip: nat, crc: Crc, host: Order)
    requires ip + PACKET_LENGTH <= |s|
  {
    Load(host, s[ip + 56..ip + 60]) == crc(PseudoPacket(s[ip..ip + 56]))
  }

  lemma PatchedParts(s: seq<byte>, ip: nat, q: seq<byte>, c: seq<byte>)
    requires ip + PACKET_LENGTH <= |s| && |q| == 3 && |c| == 4
    ensures
      var r := Patch(s, ip, q, c);
      r[ip + 56..ip + 60] == c && r[ip..ip + 56] == s[ip..ip + 33] + q + s[ip + 36..ip + 56]
  { }

  /** A completed packet passes the check of its receiver. */
  lemma CompletedIcrcHolds(s: seq<byte>, ip: nat, qpn: u32, crc: Crc, host: Order)
    requires ip + PACKET_LENGTH <= |s|
    ensures IcrcHolds(Complete(s, ip, qpn, crc, host), ip, crc, host)
  {
    var icrc := Icrc(s, ip, qpn, crc);
    CompletedBytes(s, ip, qpn, crc, host);
    PatchedParts(s, ip, Store(Big, qpn, 3), Store(host, icrc, 4));
    StoredWord(host, icrc);
  }

  lemma {:induction false} StoredWord(o: Order, x: u32)
    ensures Load(o, Store(o, x, 4)) == x
  {
    LoadStore(o, x, 4);
    ShrIsDiv(x, 32);
    Pow2Values();
  }

  lemma {:induction false} ThreeBytes(q: nat)
    ensures Load(Big, Store(Big, q, 3)) == q % 0x100_0000
  {
    LoadStore(Big, q, 3);
    ShrIsDiv(q, 24);
    Pow2Values();
  }
}
