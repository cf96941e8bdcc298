/** Queue pair numbers from the wire to the query. */
module EndToEnd {
  import opened CmTypes
  import opened TrackerModel
  import opened TrackerInvariant
  import opened ByteOrder
  import opened CmMessages
  import Bth
  import Cnp

  /** Queue pair numbers have 24 bits. */
  predicate Narrow(q: u32) {
    q < 0x100_0000
  }

  predicate NarrowFlow(f: Flow) {
    Narrow(f.localQpn) && Narrow(f.remoteQpn)
  }

  ghost predicate NarrowFlows(t: Tracker) {
    forall i :: 0 <= i < |t.flows| ==> NarrowFlow(t.flows[i])
  }

  predicate NarrowPacket(p: Packet) {
    p.msg.Req? || p.msg.Rep? ==> Narrow(p.msg.localQpn)
  }

  /** `ps` is what the handlers read from the datagrams `raws`. */
  ghost predicate Parses(raws: seq<RawPacket>, ps: seq<Packet>) {
    |ps| == |raws| && forall i :: 0 <= i < |raws| ==> ps[i] == raws[i].Parse()
  }

  /** Whatever their bytes, datagrams yield 24-bit queue pair numbers. */
  lemma ParsedAreNarrow(raws: seq<RawPacket>, ps: seq<Packet>)
    requires Parses(raws, ps)
    ensures forall i :: 0 <= i < |ps| ==> NarrowPacket(ps[i])
  { }

  lemma AddNewFlowKeepsNarrow(t: Tracker, l: u32, k: RemoteKey)
    requires t.Closed() && NarrowFlows(t) && AddNewFlow(t, l, k).Ok?
    ensures NarrowFlows(AddNewFlow(t, l, k).value.tracker)
  { }

  lemma LookupKeepsNarrow(t: Tracker, l: u32, k: RemoteKey)
    requires t.Closed() && NarrowFlows(t) && GetFlow(t, l, k).Ok?
    ensures NarrowFlows(GetFlow(t, l, k).value.tracker)
  { }

  lemma DecideKeepsNarrow(p: Packet, f: Flow)
    requires NarrowPacket(p) && NarrowFlow(f)
    ensures var a := Decide(p, f); (a.Update? || a.UpdateAndLink?) ==> NarrowFlow(a.flow)
  { }

  lemma ApplyKeepsNarrow(t: Tracker, i: nat, p: Packet, a: Action)
    requires t.Closed() && i < |t.flows| && NarrowFlows(t) && Apply(t, i, p, a).Ok?
    requires a.Update? || a.UpdateAndLink? ==> NarrowFlow(a.flow)
    ensures NarrowFlows(Apply(t, i, p, a).value)
  {
    match a
    case UpdateAndLink(f) => AddNewFlowKeepsNarrow(t.With(i, f), p.LocalId(), p.PeerKey());
    case _ =>
  }

  lemma StepKeepsNarrow(t: Tracker, p: Packet)
    requires t.Closed() && NarrowFlows(t) && NarrowPacket(p) && Step(t, p).Ok?
    ensures NarrowFlows(Step(t, p).value)
  {
    if !p.msg.Other? {
      var at := GetFlow(t, p.LocalId(), p.LookupKey()).value;
      LookupKeepsNarrow(t, p.LocalId(), p.LookupKey());
      DecideKeepsNarrow(p, at.tracker.flows[at.flow]);
      ApplyKeepsNarrow(at.tracker, at.flow, p, Decide(p, at.tracker.flows[at.flow]));
    }
  }

  lemma {:induction false} RunKeepsNarrow(ps: seq<Packet>)
    requires Run(EMPTY_TRACKER, ps).Ok? && forall i :: 0 <= i < |ps| ==> NarrowPacket(ps[i])
    ensures NarrowFlows(Run(EMPTY_TRACKER, ps).value)
  {
    if ps != [] {
      RunKeepsNarrow(ps[..|ps| - 1]);
      StepKeepsNarrow(Run(EMPTY_TRACKER, ps[..|ps| - 1]).value, ps[|ps| - 1]);
    }
  }

  lemma NarrowAnswers(t: Tracker, key: FlowKey)
    requires Inv(t) && NarrowFlows(t)
    ensures var q := GetSourceQpn(t, key); q < 0x100_0000 && (q != 0 ==> 1 <= key.qpn < 0x100_0000)
  { }

  /** However the bytes of the datagrams are chosen, the query answers a 24-bit
      number, and answers nonzero only for nonzero 24-bit queue pair numbers. */
  lemma {:induction false} AnswersAreNarrow(raws: seq<RawPacket>, ps: seq<Packet>, key: FlowKey)
    requires Parses(raws, ps) && Run(EMPTY_TRACKER, ps).Ok?
    ensures
      var q := GetSourceQpn(Run(EMPTY_TRACKER, ps).value, key);
      q < 0x100_0000 && (q != 0 ==> 1 <= key.qpn < 0x100_0000)
  {
    ParsedAreNarrow(raws, ps);
    RunKeepsNarrow(ps);
    RunKeepsInv(EMPTY_TRACKER, ps);
    NarrowAnswers(Run(EMPTY_TRACKER, ps).value, key);
  }

  /** A QPN the tracker answered, put into a CNP, is the one the CNP's receiver
      reads; FECN, BECN and the reserved bits stay as the template has them. */
  lemma {:induction false} AnswerReachesCnp(raws: seq<RawPacket>, ps: seq<Packet>, key: FlowKey,
                         cnp: seq<byte>, ip: nat, crc: Cnp.Crc, host: Order)
    requires Parses(raws, ps) && Run(EMPTY_TRACKER, ps).Ok? && ip + Cnp.PACKET_LENGTH <= |cnp|
    ensures
      var q := GetSourceQpn(Run(EMPTY_TRACKER, ps).value, key);
      var r := Cnp.Complete(cnp, ip, q, crc, host);
      Bth.GetQpn(r[ip + 32..ip + 36]) == q && r[ip + 32] == cnp[ip + 32]
  {
    AnswersAreNarrow(raws, ps, key);
    CnpCarries(cnp, ip, GetSourceQpn(Run(EMPTY_TRACKER, ps).value, key), crc, host);
  }

  lemma CnpCarries(cnp: seq<byte>, ip: nat, q: u32, crc: Cnp.Crc, host: Order)
    requires ip + Cnp.PACKET_LENGTH <= |cnp| && Narrow(q)
    ensures
      var r := Cnp.Complete(cnp, ip, q, crc, host);
      Bth.GetQpn(r[ip + 32..ip + 36]) == q && r[ip + 32] == cnp[ip + 32]
  {
    assert q % 0x100_0000 == q;
    Cnp.CompletedQpn(cnp, ip, q, crc, host);
  }
}
