/** Each handler by the fields of its packet and the phases it acts in.

    The twelve lemmas below give the state a packet leads to when its flow is known;
    the four before them reduce every other packet to that case. */
module Handlers {
  import opened CmTypes
  import opened TrackerModel
  import opened TrackerInvariant

  // ---- Packets whose flow is not known yet ----

  /** `t` with a new idle flow entered under `l` and `k`, as far as they are valid. */
  function WithIdle(t: Tracker, l: u32, k: RemoteKey): Tracker {
    Tracker(t.flows + [Flow(Idle, l, if k.Valid() then k else NO_KEY, 0, 0, false)],
            if l == 0 then t.localMap else t.localMap[l := |t.flows|],
            if k.Valid() then t.remoteMap[k := |t.flows|] else t.remoteMap,
            t.qpnMap)
  }

  /** `t` with the flow under `k` also entered under `l`. */
  function WithLocalId(t: Tracker, l: u32, k: RemoteKey): Tracker
    requires t.Closed() && k in t.remoteMap
  {
    var i := t.remoteMap[k];
    t.With(i, t.flows[i].(localId := l)).(localMap := t.localMap[l := i])
  }

  /** The messages that look their flow up by the local id alone. */
  predicate ByLocalId(p: Packet) {
    p.msg.Rtu? || p.msg.Dreq? || p.msg.Drep? || (p.msg.Req? && p.dir.FromHost?) || (p.msg.Rep? && p.dir.FromNet?)
  }

  /** The messages that look it up by both ids. */
  predicate ByBothIds(p: Packet) {
    p.msg.Rej? || (p.msg.Rep? && p.dir.FromHost?)
  }

  lemma UnknownLocalId(t: Tracker, p: Packet, l: u32)
    requires Inv(t) && ByLocalId(p) && p.NamesLocal(l) && l != 0 && l !in t.localMap
    ensures WithIdle(t, l, NO_KEY).Closed() && Step(t, p) == Step(WithIdle(t, l, NO_KEY), p)
  {
    LookupUnknown(t, l, NO_KEY);
  }

  /** A received REQ looks its flow up by the peer's key. */
  lemma UnknownPeerKey(t: Tracker, p: Packet, k: RemoteKey)
    requires Inv(t) && p.msg.Req? && p.dir.FromNet? && p.NamesPeer(k) && k.Valid() && k !in t.remoteMap
    ensures WithIdle(t, 0, k).Closed() && Step(t, p) == Step(WithIdle(t, 0, k), p)
  {
    LookupUnknown(t, 0, k);
  }

  lemma UnknownIds(t: Tracker, p: Packet, l: u32, k: RemoteKey)
    requires Inv(t) && ByBothIds(p) && p.NamesLocal(l) && p.NamesPeer(k) && (l != 0 || k.Valid())
    requires l !in t.localMap && k !in t.remoteMap
    ensures WithIdle(t, l, k).Closed() && Step(t, p) == Step(WithIdle(t, l, k), p)
  {
    assert p.LocalId() == l && p.LookupKey() == k;
    LookupUnknown(t, l, k);
    FoundIdle(t, l, k);
    SameLookupSameStep(t, WithIdle(t, l, k), p);
  }

  lemma FoundIdle(t: Tracker, l: u32, k: RemoteKey)
    requires t.Closed() && l !in t.localMap && k !in t.remoteMap && (l != 0 || k.Valid())
    ensures WithIdle(t, l, k).Closed()
    ensures GetFlow(WithIdle(t, l, k), l, k) == Ok(Located(WithIdle(t, l, k), |t.flows|))
  { }

  lemma SameLookupSameStep(t: Tracker, u: Tracker, p: Packet)
    requires t.Closed() && u.Closed() && !p.msg.Other?
    requires GetFlow(t, p.LocalId(), p.LookupKey()) == GetFlow(u, p.LocalId(), p.LookupKey())
    ensures Step(t, p) == Step(u, p)
  { }

  /** A flow known by the peer's key gets the packet's local id first, if it has none
      yet. */
  lemma UnknownLocalIdOfPeer(t: Tracker, p: Packet, l: u32, k: RemoteKey)
    requires Inv(t) && ByBothIds(p) && p.NamesLocal(l) && p.NamesPeer(k)
    requires l != 0 && l !in t.localMap && k in t.remoteMap
    ensures
      if t.flows[t.remoteMap[k]].localId != 0 then Step(t, p) == Abort(LocalIdTaken)
      else WithLocalId(t, l, k).Closed() && Step(t, p) == Step(WithLocalId(t, l, k), p)
  {
    assert p.LocalId() == l && p.LookupKey() == k;
    if t.flows[t.remoteMap[k]].localId == 0 {
      var v := WithLocalId(t, l, k);
      assert GetFlow(t, l, k) == Ok(Located(v, t.remoteMap[k])) == GetFlow(v, l, k);
      SameLookupSameStep(t, v, p);
    }
  }

  // ---- Packets whose flow is known ----

  lemma SentReq(t: Tracker, src: u32, dst: u32, l: u32, q: u32)
    requires Inv(t) && l in t.localMap
    ensures
      var i := t.localMap[l];
      var f := t.flows[i];
      Step(t, Packet(FromHost, src, dst, Req(l, q))) ==
      Ok(if f.phase in {Idle, ReqSent} then t.With(i, f.(phase := ReqSent, localQpn := q)) else t)
  { }

  lemma ReceivedReq(t: Tracker, ip: u32, dst: u32, r: u32, d: u32)
    requires Inv(t) && RemoteKey(ip, r) in t.remoteMap
    ensures
      var i := t.remoteMap[RemoteKey(ip, r)];
      var f := t.flows[i];
      Step(t, Packet(FromNet, ip, dst, Req(r, d))) ==
      if f.phase.ReqRcvd? && f.remoteQpn != d then Abort(ReqQpnChanged)
      else Ok(if f.phase in {Idle, ReqRcvd} then t.With(i, f.(phase := ReqRcvd, remoteQpn := d)) else t)
  { }

  /** A sent REP moves a received request on and records its QPN; the asserts apart, it
      changes nothing else. */
  lemma SentRep(t: Tracker, src: u32, ip: u32, l: u32, r: u32, q: u32, i: nat)
    requires Inv(t) && i < |t.flows| && FoundUnder(t, i, l, RemoteKey(ip, r)) && (l != 0 || RemoteKey(ip, r).Valid())
    ensures
      var f, u := t.flows[i], Step(t, Packet(FromHost, src, ip, Rep(l, r, q)));
      u.Ok? ==> u.value == if f.phase.ReqRcvd? then t.With(i, f.(phase := RepSent, localQpn := q)) else t
  {
    LookupAgain(t, i, Packet(FromHost, src, ip, Rep(l, r, q)));
    assert FlowExact(t.flows[i]);
  }

  /** A received REP moves a sent request on, records its QPN and enters the flow under
      the peer's key. */
  lemma ReceivedRep(t: Tracker, ip: u32, dst: u32, r: u32, l: u32, d: u32)
    requires Inv(t) && l in t.localMap
    ensures
      var i, k := t.localMap[l], RemoteKey(ip, r);
      var f, u := t.flows[i], Step(t, Packet(FromNet, ip, dst, Rep(r, l, d)));
      u.Ok? ==>
        u.value ==
        if !f.phase.ReqSent? then t
        else if !k.Valid() then t.With(i, f.(phase := RepRcvd, remoteQpn := d))
        else t.With(i, f.(phase := RepRcvd, remoteQpn := d, remoteId := k)).(remoteMap := t.remoteMap[k := i])
  {
    var i, k := t.localMap[l], RemoteKey(ip, r);
    LookupAgain(t, i, Packet(FromNet, ip, dst, Rep(r, l, d)));
    assert FlowExact(t.flows[i]);
    if k in t.remoteMap && t.remoteMap[k] == i {
      assert t.remoteMap[k := i] == t.remoteMap;
    }
  }

  /** The state in which flow `i` is established, with its query table entry if it can
      have one. */
  function Opened(t: Tracker, i: nat): Tracker
    requires i < |t.flows|
  {
    var f := t.flows[i];
    if f.localQpn != 0 && f.remoteQpn != 0 && f.Key() !in t.qpnMap then
      t.With(i, f.(phase := Established, inQpnMap := true)).(qpnMap := t.qpnMap[f.Key() := f.localQpn])
    else t.With(i, f.(phase := Established))
  }

  lemma EstablishOpens(t: Tracker, i: nat)
    requires t.Closed() && i < |t.flows|
    ensures OnEstablished(t.With(i, t.flows[i].(phase := Established)), i) == Opened(t, i)
  {
    var f := t.flows[i].(phase := Established);
    assert t.flows[i := f][i := f.(inQpnMap := true)] == t.flows[i := f.(inQpnMap := true)];
  }

  lemma SentRtu(t: Tracker, src: u32, dst: u32, l: u32, r: u32)
    requires Inv(t) && l in t.localMap
    ensures
      var i := t.localMap[l];
      Step(t, Packet(FromHost, src, dst, Rtu(l, r))) == Ok(if t.flows[i].phase.RepRcvd? then Opened(t, i) else t)
  {
    EstablishOpens(t, t.localMap[l]);
    assert FlowExact(t.flows[t.localMap[l]]);
  }

  lemma ReceivedRtu(t: Tracker, src: u32, dst: u32, r: u32, l: u32)
    requires Inv(t) && l in t.localMap
    ensures
      var i := t.localMap[l];
      Step(t, Packet(FromNet, src, dst, Rtu(r, l))) == Ok(if t.flows[i].phase.RepSent? then Opened(t, i) else t)
  {
    EstablishOpens(t, t.localMap[l]);
    assert FlowExact(t.flows[t.localMap[l]]);
  }

  lemma SentDreq(t: Tracker, src: u32, dst: u32, l: u32, r: u32)
    requires Inv(t) && l in t.localMap
    ensures
      var i := t.localMap[l];
      var f := t.flows[i];
      Step(t, Packet(FromHost, src, dst, Dreq(l, r))) ==
      Ok(if f.phase in {Idle, Established, DreqSent, DreqRcvd} then t.With(i, f.(phase := DreqSent)) else t)
  { }

  lemma ReceivedDreq(t: Tracker, src: u32, dst: u32, r: u32, l: u32)
    requires Inv(t) && l in t.localMap
    ensures
      var i := t.localMap[l];
      var f := t.flows[i];
      Step(t, Packet(FromNet, src, dst, Dreq(r, l))) ==
      Ok(if f.phase in {RepSent, Established, DreqSent, DreqRcvd} then t.With(i, f.(phase := DreqRcvd)) else t)
  {
    assert FlowExact(t.flows[t.localMap[l]]);
  }

  // ---- The packets that erase ----

  /** The phases in which a packet erases its flow. */
  function ErasingPhases(p: Packet): set<FlowPhase> {
    if p.msg.Drep? then {DreqSent, DreqRcvd}
    else if !p.msg.Rej? then {}
    else if p.dir.FromHost? then {Idle, ReqSent, ReqRcvd, RepSent, RepRcvd}
    else {Idle, ReqSent, RepSent, RepRcvd, Established, DreqSent}
  }

  /** `t` without the two ids named and without flow `i`'s query table entry. */
  function Erased(t: Tracker, i: nat, l: u32, k: RemoteKey): Tracker
    requires i < |t.flows|
  {
    var f := t.flows[i];
    Tracker(t.flows[i := f.(inQpnMap := false)], t.localMap - {l}, t.remoteMap - {k},
            if f.inQpnMap then t.qpnMap - {f.Key()} else t.qpnMap)
  }

  lemma DecidesByPhase(p: Packet, f: Flow)
    requires FlowExact(f) && (p.msg.Rej? || p.msg.Drep?)
    ensures Decide(p, f) == if f.phase in ErasingPhases(p) then Erase else Ignore
  { }

  lemma {:induction false} ErasingStep(t: Tracker, p: Packet, i: nat)
    requires Inv(t) && i < |t.flows| && FoundUnder(t, i, p.LocalId(), p.PeerKey())
    requires p.msg.Rej? || p.msg.Drep?
    requires p.LocalId() != 0 || p.LookupKey().Valid()
    ensures
      Step(t, p) == Ok(if t.flows[i].phase in ErasingPhases(p) then Erased(t, i, p.LocalId(), p.PeerKey()) else t)
  {
    LookupAgain(t, i, p);
    EraseLeaves(t, i, p.LocalId(), p.PeerKey());
    assert FlowExact(t.flows[i]);
    DecidesByPhase(p, t.flows[i]);
  }

  lemma SentRej(t: Tracker, src: u32, ip: u32, l: u32, r: u32, i: nat)
    requires Inv(t) && i < |t.flows| && FoundUnder(t, i, l, RemoteKey(ip, r)) && (l != 0 || RemoteKey(ip, r).Valid())
    ensures
      Step(t, Packet(FromHost, src, ip, Rej(l, r))) ==
      Ok(if t.flows[i].phase in {Idle, ReqSent, ReqRcvd, RepSent, RepRcvd}
         then Erased(t, i, l, RemoteKey(ip, r)) else t)
  {
    ErasingStep(t, Packet(FromHost, src, ip, Rej(l, r)), i);
  }

  lemma ReceivedRej(t: Tracker, ip: u32, dst: u32, r: u32, l: u32, i: nat)
    requires Inv(t) && i < |t.flows| && FoundUnder(t, i, l, RemoteKey(ip, r)) && (l != 0 || RemoteKey(ip, r).Valid())
    ensures
      Step(t, Packet(FromNet, ip, dst, Rej(r, l))) ==
      Ok(if t.flows[i].phase in {Idle, ReqSent, RepSent, RepRcvd, Established, DreqSent}
         then Erased(t, i, l, RemoteKey(ip, r)) else t)
  {
    ErasingStep(t, Packet(FromNet, ip, dst, Rej(r, l)), i);
  }

  lemma SentDrep(t: Tracker, src: u32, ip: u32, l: u32, r: u32)
    requires Inv(t) && l in t.localMap
    ensures
      var i := t.localMap[l];
      Step(t, Packet(FromHost, src, ip, Drep(l, r))) ==
      Ok(if t.flows[i].phase in {DreqSent, DreqRcvd} then Erased(t, i, l, RemoteKey(ip, r)) else t)
  {
    ErasingStep(t, Packet(FromHost, src, ip, Drep(l, r)), t.localMap[l]);
  }

  lemma ReceivedDrep(t: Tracker, ip: u32, dst: u32, r: u32, l: u32)
    requires Inv(t) && l in t.localMap
    ensures
      var i := t.localMap[l];
      Step(t, Packet(FromNet, ip, dst, Drep(r, l))) ==
      Ok(if t.flows[i].phase in {DreqSent, DreqRcvd} then Erased(t, i, l, RemoteKey(ip, r)) else t)
  {
    ErasingStep(t, Packet(FromNet, ip, dst, Drep(r, l)), t.localMap[l]);
  }

  // ---- A REJ, whichever way its ids lead to its flow ----

  /** The flow that `l` leads to or, when `l` is unknown, `k`. */
  function Leads(t: Tracker, l: u32, k: RemoteKey): Option<nat> {
    if l in t.localMap then Some(t.localMap[l])
    else if k in t.remoteMap then Some(t.remoteMap[k])
    else None
  }

  lemma WithLocalIdHasInv(t: Tracker, l: u32, k: RemoteKey)
    requires Inv(t) && l != 0 && l !in t.localMap && k in t.remoteMap && t.flows[t.remoteMap[k]].localId == 0
    ensures Inv(WithLocalId(t, l, k))
  {
    BindLocalKeepsInv(t, t.remoteMap[k], l);
  }

  lemma KnownRej(t: Tracker, p: Packet, l: u32, k: RemoteKey)
    requires Inv(t) && p.msg.Rej? && p.NamesLocal(l) && p.NamesPeer(k)
    requires Leads(t, l, k).Some? && (l == 0 || l in t.localMap)
    ensures
      var i := Leads(t, l, k).value;
      Step(t, p) == Ok(if t.flows[i].phase in ErasingPhases(p) then Erased(t, i, l, k) else t)
  {
    ErasingStep(t, p, Leads(t, l, k).value);
  }

  lemma LinkedRej(t: Tracker, p: Packet, l: u32, k: RemoteKey)
    requires t.Closed() && l != 0 && l !in t.localMap && k in t.remoteMap && Inv(WithLocalId(t, l, k))
    requires p.msg.Rej? && p.NamesLocal(l) && p.NamesPeer(k)
    ensures
      var v, i := WithLocalId(t, l, k), t.remoteMap[k];
      Step(v, p) == Ok(if t.flows[i].phase in ErasingPhases(p) then Erased(v, i, l, k) else v)
  {
    HandlersReadNames(p);
    ErasingStep(WithLocalId(t, l, k), p, t.remoteMap[k]);
  }

  lemma LinkedErase(t: Tracker, l: u32, k: RemoteKey)
    requires t.Closed() && l !in t.localMap && k in t.remoteMap
    ensures
      var u, f := Erased(WithLocalId(t, l, k), t.remoteMap[k], l, k), t.flows[t.remoteMap[k]];
      && u.localMap == t.localMap - {l} && u.remoteMap == t.remoteMap - {k}
      && u.qpnMap == if f.inQpnMap then t.qpnMap - {f.Key()} else t.qpnMap
  { }

  /** A REJ takes its flow down exactly in the phases of its direction: both ids it
      names and the flow's query table entry go, and no other entry. In any other
      phase nothing goes; at most the flow gets its local id. */
  lemma RejTakesDownExactly(t: Tracker, p: Packet, l: u32, k: RemoteKey)
    requires Inv(t) && p.msg.Rej? && p.NamesLocal(l) && p.NamesPeer(k) && Step(t, p).Ok? && Leads(t, l, k).Some?
    ensures
      var f, u := t.flows[Leads(t, l, k).value], Step(t, p).value;
      if f.phase in ErasingPhases(p) then
        && u.localMap == t.localMap - {l} && u.remoteMap == t.remoteMap - {k}
        && u.qpnMap == if f.inQpnMap then t.qpnMap - {f.Key()} else t.qpnMap
      else u == if l == 0 || l in t.localMap then t else WithLocalId(t, l, k)
  {
    if l != 0 && l !in t.localMap {
      UnknownLocalIdOfPeer(t, p, l, k);
      WithLocalIdHasInv(t, l, k);
      LinkedRej(t, p, l, k);
      LinkedErase(t, l, k);
    } else {
      KnownRej(t, p, l, k);
    }
  }
}
