/** The congestion notification packet template. */
module CnpTemplate {
  import opened CmTypes
  import opened Words
  import opened ByteOrder
  import opened Cnp
  import Bth

  /** IPv4, DSCP 48 with ECT(0), don't fragment, TTL 255, UDP, 60 bytes in all, up
      to the two addresses, which the template leaves zero. */
  const IP_TEMPLATE: seq<byte> := [0x45, 0xc2, 0, 60, 0, 0, 0x40, 0, 255, 17, 0, 0]

  /** Source port 0xf000, destination port 4791, 40 bytes. */
  const UDP_TEMPLATE: seq<byte> := [0xf0, 0, 0x12, 0xb7, 0, 40, 0, 0]

  /** Opcode 0x81, partition key 0xffff, BECN set. */
  const BTH_TEMPLATE: seq<byte> := [0x81, 0, 0xff, 0xff, 0x40, 0, 0, 0, 0, 0, 0, 0]

  function Template(): (t: seq<byte>)
    ensures |t| == PACKET_LENGTH
  {
    IP_TEMPLATE + Zeros(8) + UDP_TEMPLATE + BTH_TEMPLATE + Zeros(CNP_LENGTH + ICRC_LENGTH)
  }

  /** The part of a buffer from `at` on. */
  predicate Holds(s: seq<byte>, at: nat, bs: seq<byte>) {
    at + |bs| <= |s| && s[at..at + |bs|] == bs
  }

  /** Writes field `bs` at `k` into the header `r` that starts at `at`. */
  method Put(buf: array<byte>, at: nat, k: nat, bs: seq<byte>, ghost s: seq<byte>, ghost r: seq<byte>)
    requires k + |bs| <= |r| && at + |r| <= |s| && buf[..] == Overwrite(s, at, r)
    modifies buf
    ensures buf[..] == Overwrite(s, at, Overwrite(r, k, bs))
  {
    WriteWord(buf, at + k, bs);
    assert forall i :: 0 <= i < buf.Length ==> buf[..][i] == Overwrite(s, at, Overwrite(r, k, bs))[i];
  }

  function Zeros(n: nat): (z: seq<byte>)
    ensures |z| == n && forall i :: 0 <= i < n ==> z[i] == 0
  {
    seq(n, i => 0)
  }

  lemma {:induction false} Network16(x: nat)
    requires x < 0x1_0000
    ensures Store(Big, x, 2) == [x / 256, x % 256]
  { }

  method FillIp(buf: array<byte>, ip: nat)
    requires Holds(buf[..], ip, Zeros(12))
    modifies buf
    ensures buf[..] == Overwrite(old(buf[..]), ip, IP_TEMPLATE)
  {
    ghost var s, z := buf[..], Zeros(12);
    assert s == Overwrite(s, ip, z);
    Put(buf, ip, 0, [4 * 16 + 5], s, z);
    ghost var r1 := Overwrite(z, 0, [0x45]);
    Put(buf, ip, 8, [255], s, r1);
    ghost var r2 := Overwrite(r1, 8, [255]);
    Put(buf, ip, 9, [17], s, r2);
    ghost var r3 := Overwrite(r2, 9, [17]);
    Network16(0x4000);
    Put(buf, ip, 6, Store(Big, 0x4000, 2), s, r3);
    ghost var r4 := Overwrite(r3, 6, [0x40, 0]);
    Put(buf, ip, 1, [0xc2], s, r4);
    ghost var r5 := Overwrite(r4, 1, [0xc2]);
    Network16(60);
    Put(buf, ip, 2, Store(Big, PACKET_LENGTH, 2), s, r5);
    IpFields();
  }

  /** The IP header fields, written one by one into zeros. */
  lemma IpFields()
    ensures
      var r3 := Overwrite(Overwrite(Overwrite(Zeros(12), 0, [0x45]), 8, [255]), 9, [17]);
      Overwrite(Overwrite(Overwrite(r3, 6, [0x40, 0]), 1, [0xc2]), 2, [0, 60]) == IP_TEMPLATE
  { }

  method FillUdp(buf: array<byte>, udp: nat)
    requires Holds(buf[..], udp, Zeros(UDP_LENGTH))
    modifies buf
    ensures buf[..] == Overwrite(old(buf[..]), udp, UDP_TEMPLATE)
  {
    ghost var s, z := buf[..], Zeros(8);
    assert s == Overwrite(s, udp, z);
    Network16(0xf000);
    Put(buf, udp, 0, Store(Big, 0xf000, 2), s, z);
    ghost var r1 := Overwrite(z, 0, [0xf0, 0]);
    Network16(4791);
    Put(buf, udp, 2, Store(Big, 4791, 2), s, r1);
    ghost var r2 := Overwrite(r1, 2, [0x12, 0xb7]);
    Network16(40);
    Put(buf, udp, 4, Store(Big, UDP_LENGTH + BTH_LENGTH + CNP_LENGTH + ICRC_LENGTH, 2), s, r2);
    assert Overwrite(r2, 4, [0, 40]) == UDP_TEMPLATE;
  }

  method FillBth(buf: array<byte>, bth: nat)
    requires Holds(buf[..], bth, Zeros(BTH_LENGTH))
    modifies buf
    ensures buf[..] == Overwrite(old(buf[..]), bth, BTH_TEMPLATE)
  {
    ghost var s, z := buf[..], Zeros(12);
    assert s == Overwrite(s, bth, z);
    Put(buf, bth, 0, [0x81], s, z);
    ghost var r1 := Overwrite(z, 0, [0x81]);
    var w: Bth.QpnWord := buf[bth + 4..bth + 8];
    assert w == [0, 0, 0, 0];
    w := SetBecn(w);
    Put(buf, bth, 4, w, s, r1);
    ghost var r2 := Overwrite(r1, 4, [0x40, 0, 0, 0]);
    Network16(0xffff);
    Put(buf, bth, 2, Store(Big, 0xffff, 2), s, r2);
    BthFields();
  }

  method SetBecn(w: Bth.QpnWord) returns (r: Bth.QpnWord)
    ensures r == Bth.SetMask(w, Bth.BECN_MASK, true)
    ensures w == [0, 0, 0, 0] ==> r == [0x40, 0, 0, 0]
  {
    r := Bth.SetMask(w, Bth.BECN_MASK, true);
    BecnOfZero();
  }

  lemma BthFields()
    ensures Overwrite(Overwrite(Overwrite(Zeros(12), 0, [0x81]), 4, [0x40, 0, 0, 0]), 2, [0xff, 0xff]) == BTH_TEMPLATE
  { }

  lemma BecnOfZero()
    ensures Bth.SetMask([0, 0, 0, 0], Bth.BECN_MASK, true) == [0x40, 0, 0, 0]
  {
    var ms: seq<byte> := [0x40, 0, 0, 0];
    var a: seq<byte>, b: seq<byte>, c: seq<byte> := [0x40], [0x40, 0], [0x40, 0, 0];
    assert ms[..3] == c && c[..2] == b && b[..1] == a && a[..0] == [];
    assert Load(Big, a) == 0x40 && Load(Big, b) == 0x4000 && Load(Big, c) == 0x40_0000;
    assert Load(Big, ms) == Bth.BECN_MASK;
    StoreLoad(Big, ms);
  }

  /** ctcm_fill_cnp_template: appends the template, or fails when there is no room. */
  method FillTemplate(cnp: Mbuf) returns (ret: int)
    requires cnp.dataLength <= cnp.buf.Length
    modifies cnp, cnp.buf
    ensures cnp.l2Length == old(cnp.l2Length) && cnp.l3Length == IP_LENGTH && cnp.l4Length == UDP_LENGTH
    ensures cnp.packetType == PTYPE_L4_UDP + PTYPE_L3_IPV4 && IsIpv4(cnp.packetType)
    ensures ret == if old(cnp.dataLength) + PACKET_LENGTH <= cnp.buf.Length then 0 else -1
    ensures ret == 0 ==>
      && cnp.dataLength == old(cnp.dataLength) + PACKET_LENGTH
      && cnp.buf[..] == Overwrite(old(cnp.buf[..]), old(cnp.dataLength), Template())
    ensures ret == -1 ==> cnp.dataLength == old(cnp.dataLength) && cnp.buf[..] == old(cnp.buf[..])
  {
    TemplateType();
    cnp.packetType := Or(PTYPE_L4_UDP, PTYPE_L3_IPV4);
    cnp.l3Length := IP_LENGTH;
    cnp.l4Length := UDP_LENGTH;
    var ip := cnp.dataLength;
    if cnp.buf.Length - ip < PACKET_LENGTH {
      return -1;
    }
    cnp.dataLength := ip + PACKET_LENGTH;
    FillPacket(cnp.buf, ip);
    return 0;
  }

  lemma TemplateType()
    ensures Or(PTYPE_L4_UDP, PTYPE_L3_IPV4) == PTYPE_L4_UDP + PTYPE_L3_IPV4
    ensures IsIpv4(PTYPE_L4_UDP + PTYPE_L3_IPV4)
  {
    assert Or(32, 1) == 33 && Or(64, 2) == 66 && Or(128, 4) == 132 && Or(256, 8) == 264;
    assert And(33, 1) == 1 && And(66, 2) == 2 && And(132, 4) == 4 && And(264, 8) == 8;
  }

  method FillPacket(buf: array<byte>, ip: nat)
    requires ip + PACKET_LENGTH <= buf.Length
    modifies buf
    ensures buf[..] == Overwrite(old(buf[..]), ip, Template())
  {
    ghost var s := buf[..];
    WriteWord(buf, ip, Zeros(PACKET_LENGTH));
    HoldsPart(s, ip, 0, 12);
    FillIp(buf, ip);
    HoldsPart(s, ip, 20, 8);
    HoldsElsewhere(Overwrite(s, ip, Zeros(PACKET_LENGTH)), ip, IP_TEMPLATE, ip + 20, Zeros(8));
    ghost var s1 := buf[..];
    FillUdp(buf, ip + IP_LENGTH);
    HoldsPart(s, ip, 28, 12);
    HoldsElsewhere(Overwrite(s, ip, Zeros(PACKET_LENGTH)), ip, IP_TEMPLATE, ip + 28, Zeros(12));
    HoldsElsewhere(s1, ip + 20, UDP_TEMPLATE, ip + 28, Zeros(12));
    FillBth(buf, ip + IP_LENGTH + UDP_LENGTH);
    PartsMakeTemplate(s, ip);
  }

  lemma HoldsPart(s: seq<byte>, ip: nat, k: nat, n: nat)
    requires ip + PACKET_LENGTH <= |s| && k + n <= PACKET_LENGTH
    ensures Holds(Overwrite(s, ip, Zeros(PACKET_LENGTH)), ip + k, Zeros(n))
  { }

  lemma HoldsElsewhere(s: seq<byte>, at: nat, bs: seq<byte>, k: nat, cs: seq<byte>)
    requires Holds(s, k, cs) && at + |bs| <= |s| && at + |bs| <= k
    ensures Holds(Overwrite(s, at, bs), k, cs)
  { }

  lemma PartsMakeTemplate(s: seq<byte>, ip: nat)
    requires ip + PACKET_LENGTH <= |s|
    ensures
      Overwrite(Overwrite(Overwrite(Overwrite(s, ip, Zeros(PACKET_LENGTH)), ip, IP_TEMPLATE),
                          ip + 20, UDP_TEMPLATE), ip + 28, BTH_TEMPLATE) == Overwrite(s, ip, Template())
  { }

  /** The packet at `ip` is a CNP for this queue pair, header field by header field. */
  predicate IsCnp(s: seq<byte>, ip: nat, qpn: nat)
    requires ip + PACKET_LENGTH <= |s|
  {
    IsIpHeader(s, ip) && IsUdpHeader(s, ip + 20) && IsCnpBth(s, ip + 28, qpn)
  }

  /** Version 4 with five words, DSCP 48 and ECT(0), 60 bytes in all, don't fragment,
      TTL 255, UDP. */
  predicate IsIpHeader(s: seq<byte>, ip: nat)
    requires ip + IP_LENGTH <= |s|
  {
    && s[ip] == 0x45 && s[ip + 1] == 0xc2 && Load(Big, s[ip + 2..ip + 4]) == 60
    && Load(Big, s[ip + 6..ip + 8]) == 0x4000 && s[ip + 8] == 255 && s[ip + 9] == 17
  }

  /** From port 0xf000 to the port of RoCE v2, 40 bytes. */
  predicate IsUdpHeader(s: seq<byte>, udp: nat)
    requires udp + UDP_LENGTH <= |s|
  {
    && Load(Big, s[udp..udp + 2]) == 0xf000 && Load(Big, s[udp + 2..udp + 4]) == 4791
    && Load(Big, s[udp + 4..udp + 6]) == 40
  }

  /** Opcode 0x81, the default partition key, BECN set, FECN clear and this QPN. */
  predicate IsCnpBth(s: seq<byte>, bth: nat, qpn: nat)
    requires bth + BTH_LENGTH <= |s|
  {
    && s[bth] == 0x81 && Load(Big, s[bth + 2..bth + 4]) == 0xffff && Bth.GetQpn(s[bth + 4..bth + 8]) == qpn
    && Bth.TestMask(s[bth + 4..bth + 8], Bth.BECN_MASK) && !Bth.TestMask(s[bth + 4..bth + 8], Bth.FECN_MASK)
  }

  /** What the template leaves zero: identification, both checksums and addresses, the
      BTH's flags, acknowledge bit and PSN, and the 16 reserved bytes. */
  predicate Unset(i: int) {
    i == 4 || i == 5 || 10 <= i < 20 || i == 26 || i == 27 || i == 29 || 36 <= i < 56
  }

  /** A completed template is a CNP for the queue pair, with the QPN taken modulo 2^24;
      its ICRC is right and the fields left to the user are zero. */
  lemma CompletedTemplate(s: seq<byte>, ip: nat, qpn: u32, crc: Crc, host: Order)
    requires Holds(s, ip, Template())
    ensures
      var r := Complete(s, ip, qpn, crc, host);
      && IsCnp(r, ip, qpn % 0x100_0000) && IcrcHolds(r, ip, crc, host)
      && forall i :: 0 <= i < PACKET_LENGTH && Unset(i) ==> r[ip + i] == 0
  {
    var r := Complete(s, ip, qpn, crc, host);
    forall i | 0 <= i < PACKET_LENGTH && !Written(i)
      ensures r[ip + i] == Template()[i]
    {
      CompletionFrame(s, ip, qpn, crc, host, ip + i);
      assert s[ip..ip + PACKET_LENGTH][i] == s[ip + i];
    }
    CompletedQpn(s, ip, qpn, crc, host);
    CompletedIcrcHolds(s, ip, qpn, crc, host);
    TemplateHeaders(r, ip);
  }

  lemma TemplateHeaders(r: seq<byte>, ip: nat)
    requires ip + PACKET_LENGTH <= |r|
    requires forall i :: 0 <= i < PACKET_LENGTH && !Written(i) ==> r[ip + i] == Template()[i]
    ensures IsIpHeader(r, ip) && IsUdpHeader(r, ip + 20) && IsCnpBth(r, ip + 28, Bth.GetQpn(r[ip + 32..ip + 36]))
    ensures forall i :: 0 <= i < PACKET_LENGTH && Unset(i) ==> r[ip + i] == 0
  {
    TemplateIp(r, ip);
    TemplateUdp(r, ip);
    TemplateBth(r, ip);
    TemplateZeros();
  }

  lemma TemplateZeros()
    ensures forall i :: 0 <= i < PACKET_LENGTH && Unset(i) ==> Template()[i] == 0
  {
    assert Template()[..12] == IP_TEMPLATE && Template()[20..28] == UDP_TEMPLATE && Template()[28..40] == BTH_TEMPLATE;
    forall i | 0 <= i < PACKET_LENGTH && Unset(i)
      ensures Template()[i] == 0
    {
      if i < 12 {
        assert Template()[i] == IP_TEMPLATE[i];
      } else if 20 <= i < 28 {
        assert Template()[i] == UDP_TEMPLATE[i - 20];
      } else if 28 <= i < 40 {
        assert Template()[i] == BTH_TEMPLATE[i - 28];
      }
    }
  }

  lemma TemplateIp(r: seq<byte>, ip: nat)
    requires ip + PACKET_LENGTH <= |r|
    requires forall i :: 0 <= i < 20 ==> r[ip + i] == Template()[i]
    ensures IsIpHeader(r, ip)
  {
    assert Template()[..12] == IP_TEMPLATE;
    assert r[ip..ip + 12] == IP_TEMPLATE;
    LoadTwo(r, ip + 2);
    LoadTwo(r, ip + 6);
  }

  lemma TemplateUdp(r: seq<byte>, ip: nat)
    requires ip + PACKET_LENGTH <= |r|
    requires forall i :: 20 <= i < 28 ==> r[ip + i] == Template()[i]
    ensures IsUdpHeader(r, ip + 20)
  {
    assert Template()[20..28] == UDP_TEMPLATE;
    assert r[ip + 20..ip + 28] == UDP_TEMPLATE;
    LoadTwo(r, ip + 20);
    LoadTwo(r, ip + 22);
    LoadTwo(r, ip + 24);
  }

  lemma TemplateBthBytes()
    ensures Template()[28] == 0x81 && Template()[30] == Template()[31] == 0xff && Template()[32] == 0x40
  {
    var bth := Template()[28..40];
    assert bth == BTH_TEMPLATE;
    assert bth[0] == Template()[28] && bth[2] == Template()[30] && bth[3] == Template()[31] && bth[4] == Template()[32];
  }

  lemma TemplateBth(r: seq<byte>, ip: nat)
    requires ip + PACKET_LENGTH <= |r|
    requires forall i :: 28 <= i < 33 ==> r[ip + i] == Template()[i]
    ensures IsCnpBth(r, ip + 28, Bth.GetQpn(r[ip + 32..ip + 36]))
  {
    TemplateBthBytes();
    LoadTwo(r, ip + 30);
    BecnOnly(r[ip + 32..ip + 36]);
  }

  lemma LoadTwo(s: seq<byte>, at: nat)
    requires at + 2 <= |s|
    ensures Load(Big, s[at..at + 2]) == s[at] as int * 256 + s[at + 1]
  {
    var w := s[at..at + 2];
    assert w[..1] == [s[at]] && [s[at]][..0] == [];
    assert Load(Big, w[..1]) == s[at];
  }

  lemma {:induction false} TopByteBits(w: Bth.QpnWord)
    requires w[0] == 0x40
    ensures Bit(Load(Big, w), 30) && !Bit(Load(Big, w), 31)
  {
    LoadBit(Big, w, 30);
    LoadBit(Big, w, 31);
    assert Bit(0x40, 6) && !Bit(0x40, 7);
  }

  lemma BecnOnly(w: Bth.QpnWord)
    requires w[0] == 0x40
    ensures Bth.TestMask(w, Bth.BECN_MASK) && !Bth.TestMask(w, Bth.FECN_MASK)
  {
    Bth.MaskValues();
    Bth.TestReadsBit(w, Bth.BECN_MASK, 30);
    Bth.TestReadsBit(w, Bth.FECN_MASK, 31);
    TopByteBits(w);
  }

  /** `r` is `s` with a CNP for this QPN in the 60 bytes from `ip` on, its ICRC right
      and zero where the user has fields to fill in. */
  ghost predicate CnpPlaced(s: seq<byte>, r: seq<byte>, ip: nat, qpn: nat, crc: Crc, host: Order) {
    && |r| == |s| && ip + PACKET_LENGTH <= |s| && IsCnp(r, ip, qpn) && IcrcHolds(r, ip, crc, host)
    && (forall i :: 0 <= i < PACKET_LENGTH && Unset(i) ==> r[ip + i] == 0)
    && forall i :: 0 <= i < |s| && !(ip <= i < ip + PACKET_LENGTH) ==> r[i] == s[i]
  }

  lemma CompletedIsPlaced(s: seq<byte>, ip: nat, qpn: u32, crc: Crc, host: Order)
    requires ip + PACKET_LENGTH <= |s|
    ensures
      CnpPlaced(s, Complete(Overwrite(s, ip, Template()), ip, qpn, crc, host), ip, qpn % 0x100_0000, crc, host)
  {
    var t := Overwrite(s, ip, Template());
    CompletedTemplate(t, ip, qpn, crc, host);
    forall i | 0 <= i < |s| && !(ip <= i < ip + PACKET_LENGTH)
      ensures Complete(t, ip, qpn, crc, host)[i] == s[i]
    {
      CompletionFrame(t, ip, qpn, crc, host, i);
    }
  }

  lemma GeneratedIsPlaced(s: seq<byte>, t: seq<byte>, r: seq<byte>, ip: nat, bth: nat, qpn: u32, crc: Crc, host: Order)
    requires ip + PACKET_LENGTH <= |s| && bth == ip + 28
    requires t == Overwrite(s, ip, Template()) && r == Generate(t, ip, bth, qpn, crc, host)
    ensures CnpPlaced(s, r, ip, qpn % 0x100_0000, crc, host)
  {
    CompletedIsPlaced(s, ip, qpn, crc, host);
  }

  /** The library's two calls on one packet buffer, the IP header following the
      link layer's bytes: when there is room, the buffer then holds a CNP for the
      queue pair behind the bytes it held before. */
  method MakeCnp(cnp: Mbuf, qpn: u32, crc: Crc, host: Order) returns (ret: int)
    requires cnp.dataLength <= cnp.buf.Length && cnp.l2Length == cnp.dataLength
    modifies cnp, cnp.buf
    ensures cnp.l2Length == old(cnp.l2Length)
    ensures ret == if old(cnp.dataLength) + PACKET_LENGTH <= cnp.buf.Length then 0 else -1
    ensures ret == 0 ==> CnpPlaced(old(cnp.buf[..]), cnp.buf[..], cnp.l2Length, qpn % 0x100_0000, crc, host)
    ensures ret == -1 ==> cnp.buf[..] == old(cnp.buf[..])
  {
    ghost var s := cnp.buf[..];
    ret := FillTemplate(cnp);
    if ret == 0 {
      ghost var t := cnp.buf[..];
      GenerateCnp(cnp, qpn, crc, host);
      GeneratedIsPlaced(s, t, cnp.buf[..], cnp.l2Length, cnp.l2Length + cnp.l3Length + cnp.l4Length, qpn, crc, host);
    }
  }
}
