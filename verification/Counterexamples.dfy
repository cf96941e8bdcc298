/** Runs that show four plausible properties to fail; each has its exact condition
    elsewhere. */
module Counterexamples {
  import opened CmTypes
  import opened TrackerModel
  import opened TrackerInvariant
  import opened Asserts
  import opened ExactIndex
  import opened Agreement
  import opened Retransmission
  import opened EstablishedIndex
  import opened Session

  /** A REJ that names the flow's local id with another peer id takes the flow out
      of one map only. */
  lemma MapsCanDisagree() returns (t: Tracker, rej: Packet)
    ensures Reachable(t) && Inv(t) && Agree(t)
    ensures Step(t, rej).Ok? && !Agree(Step(t, rej).value)
  {
    rej := Packet(FromHost, 0, 9, Rej(5, 2));
    t := IdleWithBothIds();
    ReachableHasInv(t);
    assert Agree(t);
    AbortsExactlyAsPredicted(t, rej);
    assert Erases(t, rej) && !NamesWholeTarget(t, rej);
    StepAgrees(t, rej);
  }

  lemma IdleWithBothIds() returns (t: Tracker)
    ensures Reachable(t) && t.Closed() && |t.flows| == 1 && t.flows[0] == Flow(Idle, 5, RemoteKey(9, 1), 0, 0, false)
    ensures t.localMap == map[5 := 0] && t.remoteMap == map[RemoteKey(9, 1) := 0]
  {
    var rep := HostRep(9, 5, 1, 3);
    HostRepAddsFlow(EMPTY_TRACKER, 9, 5, 1, 3);
    RunTwo(rep, rep);
    t := Step(EMPTY_TRACKER, rep).value;
    assert Run(EMPTY_TRACKER, [rep]) == Ok(t);
  }

  /** A host DREQ and two DREPs, and no other packet: the second DREP leaves a flow
      behind. */
  lemma DrepIsNotIdempotent() returns (t: Tracker, drep: Packet)
    ensures Reachable(t) && Inv(t)
    ensures Step(t, drep).Ok? && Step(Step(t, drep).value, drep) != Step(t, drep)
  {
    var dreq := Packet(FromHost, 0, 9, Dreq(5, 1));
    drep := Packet(FromHost, 0, 9, Drep(5, 1));
    LookupUnknown(EMPTY_TRACKER, 5, NO_KEY);
    RunTwo(dreq, drep);
    t := Step(EMPTY_TRACKER, dreq).value;
    assert 5 in t.localMap && t.flows[t.localMap[5]].phase == DreqSent;
    assert Run(EMPTY_TRACKER, [dreq]) == Ok(t);
    ReachableHasInv(t);
    AbortsExactlyAsPredicted(t, drep);
    RepeatedDrepExactly(t, drep);
  }

  /** A REP to a flow that has sent its REQ. */
  lemma RepToRequest(t: Tracker, ip: u32, l: u32, r: u32, d: u32, f: Flow)
    requires IdsExact(t) && l in t.localMap && t.flows[t.localMap[l]] == f && f.phase.ReqSent? && f.remoteId == NO_KEY
    requires ip != 0 && r != 0 && RemoteKey(ip, r) !in t.remoteMap
    ensures
      var u := Step(t, NetRep(ip, l, r, d));
      && u.Ok? && u.value.localMap == t.localMap
      && u.value.flows[t.localMap[l]] == f.(phase := RepRcvd, remoteQpn := d, remoteId := RemoteKey(ip, r))
  { }

  /** A host REQ with QPN 0 and the REP to it. */
  lemma ZeroQpnReplied() returns (ps: seq<Packet>, t: Tracker)
    ensures Run(EMPTY_TRACKER, ps) == Ok(t)
    ensures 5 in t.localMap && t.flows[t.localMap[5]] == Flow(RepRcvd, 5, RemoteKey(9, 2), 0, 7, false)
  {
    var req, rep := HostReq(5, 0), NetRep(9, 5, 2, 7);
    HostReqAddsFlow(EMPTY_TRACKER, 5, 0);
    RunTwo(req, rep);
    var t1 := Step(EMPTY_TRACKER, req).value;
    RepToRequest(t1, 9, 5, 2, 7, Flow(ReqSent, 5, NO_KEY, 0, 0, false));
    ps, t := [req, rep], Step(t1, rep).value;
  }

  /** A handshake with local QPN 0 ends in an established flow without an entry. */
  lemma EstablishedWithoutEntry() returns (t: Tracker, i: nat)
    ensures Reachable(t) && i < |t.flows| && t.flows[i].phase == Established && !t.flows[i].inQpnMap
  {
    var rtu := Packet(FromHost, 0, 9, Rtu(5, 2));
    var ps, t2 := ZeroQpnReplied();
    RunKeepsInv(EMPTY_TRACKER, ps);
    EntryExactlyWhen(t2, rtu);
    RunMore(ps, rtu);
    t, i := Step(t2, rtu).value, t2.localMap[5];
    assert Run(EMPTY_TRACKER, ps + [rtu]) == Ok(t);
  }

  /** A received REJ that gives the peer's id but not the local one erases by the
      peer's key alone. */
  lemma RejByPeerKey(t: Tracker, k: RemoteKey, rej: Packet)
    requires t.Closed() && k.Valid() && k in t.remoteMap && t.flows[t.remoteMap[k]].phase.Established?
    requires rej.dir.FromNet? && rej.saddr == k.addr && rej.msg == Rej(k.id, 0)
    ensures Step(t, rej) == EraseFlow(t, 0, k)
  {
    assert rej.LocalId() == 0 && rej.PeerKey() == rej.LookupKey() == k;
    assert GetFlow(t, 0, k) == Ok(Located(t, t.remoteMap[k]));
  }

  /** It strips an open connection of its entry and leaves it established under
      its local id, with its key free. */
  lemma RejStrips(t: Tracker, s: Session, rej: Packet)
    requires Inv(t) && s.Proper() && InStage(t, s, Open)
    requires rej.dir.FromNet? && rej.saddr == s.ip && rej.msg == Rej(s.r, 0)
    ensures
      var u := Step(t, rej);
      && u.Ok? && s.l in u.value.localMap
      && u.value.flows[u.value.localMap[s.l]] == Flow(Established, s.l, s.Peer(), s.q, s.d, false)
      && s.Key() !in u.value.qpnMap && !EstablishedIndexed(u.value)
  {
    RejByPeerKey(t, s.Peer(), rej);
    EraseLeaves(t, t.localMap[s.l], 0, s.Peer());
  }

  lemma OpeningPackets(s: Session) returns (ps: seq<Packet>)
    requires s.Proper() && s.role.Active?
    ensures Undisturbed(s, ps) && StageAfter(s, Absent, ps) == Some(Open)
  {
    var req, rep, rtu := HostReq(s.l, s.q), NetRep(s.ip, s.l, s.r, s.d), Packet(FromHost, 0, s.ip, Rtu(s.l, s.r));
    PlainOpening(s, req, rep, rtu);
    ps := [req, rep, rtu];
  }

  /** A connection opened from the empty tracker. */
  lemma OpenedAlone() returns (t: Tracker, s: Session)
    ensures Reachable(t) && Inv(t) && s.Proper() && InStage(t, s, Open) && EstablishedIndexed(t)
  {
    s := Session(Active, 5, 3, 9, 2, 7);
    var ps := OpeningPackets(s);
    UndisturbedRun(EMPTY_TRACKER, s, ps);
    t := Run(EMPTY_TRACKER, ps).value;
    RunKeepsInv(EMPTY_TRACKER, ps);
    AloneIsIndexed(t, s);
  }

  lemma AloneIsIndexed(t: Tracker, s: Session)
    requires t.Closed() && InStage(t, s, Open) && SameElsewhere(EMPTY_TRACKER, t, s)
    ensures EstablishedIndexed(t)
  {
    assert forall l :: l in t.localMap && l != s.l ==> l in t.localMap - {s.l};
    assert forall k :: k in t.remoteMap && k != s.Peer() ==> k in t.remoteMap - {s.Peer()};
  }

  /** So a full handshake and one REJ lead to an established flow without an entry,
      though its QPNs are nonzero and its key is free. */
  lemma EstablishedLosesEntry() returns (t: Tracker, rej: Packet)
    ensures Reachable(t) && Inv(t) && EstablishedIndexed(t)
    ensures Step(t, rej).Ok? && !EstablishedIndexed(Step(t, rej).value) && !KeepsEntries(t, rej)
  {
    var s: Session;
    t, s := OpenedAlone();
    rej := Packet(FromNet, s.ip, 0, Rej(s.r, 0));
    RejStrips(t, s, rej);
    StepKeepsIndexed(t, rej);
  }

  /** The peer's REJ of the request it sent leaves that request known. */
  lemma RejOfOwnRequest() returns (t: Tracker, rej: Packet, s: Session)
    ensures Reachable(t) && Inv(t) && s.Proper() && InStage(t, s, Requested) && IsRej(rej, s)
    ensures Step(t, rej).Ok? && s.Peer() in Step(t, rej).value.remoteMap
  {
    s := Session(Passive, 5, 3, 9, 2, 7);
    rej := Packet(FromNet, 9, 0, Rej(2, 5));
    NetReqAddsFlow(EMPTY_TRACKER, 9, 2, 7);
    RunTwo(NetReq(9, 2, 7), rej);
    t := Step(EMPTY_TRACKER, NetReq(9, 2, 7)).value;
    assert Run(EMPTY_TRACKER, [NetReq(9, 2, 7)]) == Ok(t);
    ReachableHasInv(t);
    RefusedExactly(t, s, Requested, rej);
  }
}
