/** Which asserts can fail, on which packets, and which exits are dead code. */
module Asserts {
  import opened CmTypes
  import opened TrackerModel
  import opened TrackerInvariant

  /** The phase in which a REP from this side links the peer's key. */
  function LinkingPhase(dir: Direction): FlowPhase {
    if dir.FromHost? then ReqRcvd else ReqSent
  }

  /** The assert packet `p` fails in state `t`, read off the maps and the packet
      without running a handler. */
  function Predicted(t: Tracker, p: Packet): Option<Assertion>
    requires t.Closed()
  {
    var l, k, look := p.LocalId(), p.PeerKey(), p.LookupKey();
    if p.msg.Other? then None
    else if l == 0 && !look.Valid() then Some(LookupWithoutId)
    else if l != 0 && l !in t.localMap && look in t.remoteMap && t.flows[t.remoteMap[look]].localId != 0 then
      Some(LocalIdTaken)
    else if p.msg.Rep? && l in t.localMap && t.flows[t.localMap[l]].phase == LinkingPhase(p.dir) then
      if k in t.remoteMap then
        if t.remoteMap[k] != t.localMap[l] then Some(MapsDisagree) else None
      else if k.Valid() && t.flows[t.localMap[l]].remoteId.Valid() then Some(RemoteIdTaken)
      else None
    else if p.msg.Req? && p.dir.FromNet? && k in t.remoteMap && t.flows[t.remoteMap[k]].phase == ReqRcvd
            && t.flows[t.remoteMap[k]].remoteQpn != p.msg.localQpn then
      Some(ReqQpnChanged)
    else None
  }

  lemma LookupAborts(t: Tracker, l: u32, look: RemoteKey)
    requires IdsExact(t)
    ensures GetFlow(t, l, look).Abort? <==>
      || (l == 0 && !look.Valid())
      || (l != 0 && l !in t.localMap && look in t.remoteMap && t.flows[t.remoteMap[look]].localId != 0)
    ensures GetFlow(t, l, look).Abort? ==>
      GetFlow(t, l, look).failed == if l == 0 && !look.Valid() then LookupWithoutId else LocalIdTaken
  { }

  /** The flow a lookup returns: as it was, with its local id filled in, or new. */
  lemma LookupFlow(t: Tracker, l: u32, look: RemoteKey)
    requires IdsExact(t) && GetFlow(t, l, look).Ok?
    ensures
      var at := GetFlow(t, l, look).value;
      var f := at.tracker.flows[at.flow];
      if l in t.localMap then at == Located(t, t.localMap[l])
      else if look in t.remoteMap then
        && at.flow == t.remoteMap[look]
        && f == (if l == 0 then t.flows[at.flow] else t.flows[at.flow].(localId := l))
        && at.tracker.remoteMap == t.remoteMap && (l != 0 ==> at.tracker.localMap == t.localMap[l := at.flow])
      else f == NEW_FLOW.(localId := l, remoteId := if look.Valid() then look else NO_KEY)
  { }

  /** A REP's second half, given the flow its lookup returned. */
  lemma RepSecondHalf(t: Tracker, i: nat, p: Packet)
    requires IdsExact(t) && i < |t.flows| && FoundUnder(t, i, p.LocalId(), p.PeerKey())
    requires p.msg.Rep? && Tracked(t.flows[i].phase) && (p.dir.FromNet? ==> p.LocalId() != 0)
    ensures
      var r, k := Apply(t, i, p, Decide(p, t.flows[i])), p.PeerKey();
      if t.flows[i].phase != LinkingPhase(p.dir) || p.LocalId() == 0 then r.Ok?
      else if k in t.remoteMap then r.Abort? == (t.remoteMap[k] != i) && (r.Abort? ==> r.failed == MapsDisagree)
      else r.Abort? == (k.Valid() && t.flows[i].remoteId.Valid()) && (r.Abort? ==> r.failed == RemoteIdTaken)
  { }

  lemma RepAborts(t: Tracker, p: Packet)
    requires Inv(t) && p.msg.Rep? && GetFlow(t, p.LocalId(), p.LookupKey()).Ok?
    ensures Step(t, p).Abort? <==> Predicted(t, p).Some?
    ensures Step(t, p).Abort? ==> Step(t, p).failed == Predicted(t, p).value
  {
    var l, look := p.LocalId(), p.LookupKey();
    LookupAborts(t, l, look);
    LookupFlow(t, l, look);
    LookupKeepsInv(t, p);
    var at := GetFlow(t, l, look).value;
    assert FlowExact(at.tracker.flows[at.flow]);
    RepSecondHalf(at.tracker, at.flow, p);
  }

  /** The prediction is exact, in both directions and down to the assert. So the
      asserts on erasing without an id, on an entry that does not record its ids
      and on a new flow without an id never fail. */
  lemma AbortsExactlyAsPredicted(t: Tracker, p: Packet)
    requires Inv(t)
    ensures Step(t, p).Abort? <==> Predicted(t, p).Some?
    ensures Step(t, p).Abort? ==> Step(t, p).failed == Predicted(t, p).value
    ensures Step(t, p).Abort? ==>
      Step(t, p).failed in {LookupWithoutId, MapsDisagree, LocalIdTaken, RemoteIdTaken, ReqQpnChanged}
  {
    var l, look := p.LocalId(), p.LookupKey();
    LookupAborts(t, l, look);
    if GetFlow(t, l, look).Ok? {
      if p.msg.Rep? {
        RepAborts(t, p);
      } else if !p.msg.Other? {
        NonRepAborts(t, p);
      }
    }
  }

  lemma NonRepAborts(t: Tracker, p: Packet)
    requires Inv(t) && !p.msg.Rep? && !p.msg.Other? && GetFlow(t, p.LocalId(), p.LookupKey()).Ok?
    ensures Step(t, p).Abort? <==> Predicted(t, p).Some?
    ensures Step(t, p).Abort? ==> Step(t, p).failed == Predicted(t, p).value == ReqQpnChanged
  {
    var l, look := p.LocalId(), p.LookupKey();
    LookupAborts(t, l, look);
    LookupFlow(t, l, look);
    LookupKeepsInv(t, p);
    var at := GetFlow(t, l, look).value;
    FoundDecision(at.tracker, at.flow, p);
  }

  /** So in every run from the empty tracker only these five can end it. */
  lemma {:induction false} RunAbortsOnLiveAsserts(ps: seq<Packet>)
    requires Run(EMPTY_TRACKER, ps).Abort?
    ensures Run(EMPTY_TRACKER, ps).failed in {LookupWithoutId, MapsDisagree, LocalIdTaken, RemoteIdTaken, ReqQpnChanged}
  {
    var front := ps[..|ps| - 1];
    if Run(EMPTY_TRACKER, front).Abort? {
      RunAbortsOnLiveAsserts(front);
    } else {
      RunKeepsInv(EMPTY_TRACKER, front);
      AbortsExactlyAsPredicted(Run(EMPTY_TRACKER, front).value, ps[|ps| - 1]);
    }
  }

  /** When a handler erases, the id it erases under leads to the flow it looked
      up, and a marked flow leaves the table through the normal exit: none of
      the three early returns is ever taken. */
  lemma EraseMeetsItsFlow(t: Tracker, p: Packet)
    requires Inv(t) && GetFlow(t, p.LocalId(), p.LookupKey()).Ok?
    ensures
      var at := GetFlow(t, p.LocalId(), p.LookupKey()).value;
      Decide(p, at.tracker.flows[at.flow]).Erase? ==>
        && ErasedIndex(at.tracker, p.LocalId(), p.PeerKey()) == Some(at.flow)
        && (at.tracker.flows[at.flow].inQpnMap ==> DisconnectExit(at.tracker, at.flow) == Removed)
  {
    var at := GetFlow(t, p.LocalId(), p.LookupKey()).value;
    LookupKeepsInv(t, p);
    if at.tracker.flows[at.flow].inQpnMap {
      OnDisconnectedKeepsInv(at.tracker, at.flow);
    }
  }

  /** The second add_new_flow of a sent REP aborts or changes nothing: the
      lookup before it has already linked whatever can be linked. */
  lemma SentRepLinksNothingMore(t: Tracker, p: Packet)
    requires Inv(t) && p.dir.FromHost? && p.msg.Rep?
    requires GetFlow(t, p.LocalId(), p.PeerKey()).Ok?
    ensures
      var at := GetFlow(t, p.LocalId(), p.PeerKey()).value;
      var a := Decide(p, at.tracker.flows[at.flow]);
      a.UpdateAndLink? ==>
        var u := at.tracker.With(at.flow, a.flow);
        var r := AddNewFlow(u, p.LocalId(), p.PeerKey());
        r.Ok? ==> r.value == Located(u, at.flow)
  {
    LookupKeepsInv(t, p);
  }

  // ---- Each of the five live asserts fails on some run ----

  function NetReq(ip: u32, r: u32, d: u32): Packet { Packet(FromNet, ip, 0, Req(r, d)) }
  function HostRep(ip: u32, l: u32, r: u32, q: u32): Packet { Packet(FromHost, 0, ip, Rep(l, r, q)) }
  function NetRep(ip: u32, l: u32, r: u32, d: u32): Packet { Packet(FromNet, ip, 0, Rep(r, l, d)) }
  function HostReq(l: u32, q: u32): Packet { Packet(FromHost, 0, 0, Req(l, q)) }

  lemma {:induction false} RunMore(ps: seq<Packet>, p: Packet)
    requires Run(EMPTY_TRACKER, ps).Ok?
    ensures Run(EMPTY_TRACKER, ps + [p]) == Step(Run(EMPTY_TRACKER, ps).value, p)
  { }

  lemma RunTwo(p: Packet, q: Packet)
    requires Step(EMPTY_TRACKER, p).Ok?
    ensures Run(EMPTY_TRACKER, [p]) == Step(EMPTY_TRACKER, p)
    ensures Run(EMPTY_TRACKER, [p, q]) == Step(Step(EMPTY_TRACKER, p).value, q)
  { }

  // One packet each, in any state that knows neither id.

  lemma HostReqAddsFlow(t: Tracker, l: u32, q: u32)
    requires t.Closed() && l != 0 && l !in t.localMap && NO_KEY !in t.remoteMap
    ensures Step(t, HostReq(l, q)) == Ok(t.(flows := t.flows + [Flow(ReqSent, l, NO_KEY, q, 0, false)],
                                            localMap := t.localMap[l := |t.flows|]))
  {
    LookupUnknown(t, l, NO_KEY);
    var f, g := NEW_FLOW.(localId := l), Flow(ReqSent, l, NO_KEY, q, 0, false);
    assert (t.flows + [f])[|t.flows| := g] == t.flows + [g];
  }

  lemma NetReqAddsFlow(t: Tracker, ip: u32, r: u32, d: u32)
    requires t.Closed() && ip != 0 && r != 0 && 0 !in t.localMap && RemoteKey(ip, r) !in t.remoteMap
    ensures Step(t, NetReq(ip, r, d)) == Ok(t.(flows := t.flows + [Flow(ReqRcvd, 0, RemoteKey(ip, r), 0, d, false)],
                                               remoteMap := t.remoteMap[RemoteKey(ip, r) := |t.flows|]))
  {
    var k := RemoteKey(ip, r);
    LookupUnknown(t, 0, k);
    var f, g := NEW_FLOW.(remoteId := k), Flow(ReqRcvd, 0, k, 0, d, false);
    assert (t.flows + [f])[|t.flows| := g] == t.flows + [g];
  }

  /** A REQ to an idle flow that already has the peer's key. */
  lemma NetReqFindsFlow(t: Tracker, ip: u32, r: u32, d: u32)
    requires t.Closed() && ip != 0 && r != 0 && RemoteKey(ip, r) in t.remoteMap
    requires t.flows[t.remoteMap[RemoteKey(ip, r)]].phase.Idle?
    ensures
      var i := t.remoteMap[RemoteKey(ip, r)];
      Step(t, NetReq(ip, r, d)) == Ok(t.With(i, t.flows[i].(phase := ReqRcvd, remoteQpn := d)))
  { }

  lemma HostRepAddsFlow(t: Tracker, ip: u32, l: u32, r: u32, q: u32)
    requires t.Closed() && ip != 0 && r != 0 && l != 0 && l !in t.localMap && RemoteKey(ip, r) !in t.remoteMap
    ensures Step(t, HostRep(ip, l, r, q)) == Ok(t.(flows := t.flows + [Flow(Idle, l, RemoteKey(ip, r), 0, 0, false)],
                                                   localMap := t.localMap[l := |t.flows|],
                                                   remoteMap := t.remoteMap[RemoteKey(ip, r) := |t.flows|]))
  {
    LookupUnknown(t, l, RemoteKey(ip, r));
  }

  lemma LookupWithoutIdIsLive()
    ensures Run(EMPTY_TRACKER, [HostReq(0, 7)]) == Abort(LookupWithoutId)
  { }

  lemma ReqQpnChangedIsLive()
    ensures Run(EMPTY_TRACKER, [NetReq(9, 1, 7), NetReq(9, 1, 8)]) == Abort(ReqQpnChanged)
  {
    NetReqAddsFlow(EMPTY_TRACKER, 9, 1, 7);
    RunTwo(NetReq(9, 1, 7), NetReq(9, 1, 8));
  }

  lemma LocalIdTakenIsLive()
    ensures Run(EMPTY_TRACKER, [HostRep(9, 5, 1, 3), HostRep(9, 6, 1, 3)]) == Abort(LocalIdTaken)
  {
    HostRepAddsFlow(EMPTY_TRACKER, 9, 5, 1, 3);
    RunTwo(HostRep(9, 5, 1, 3), HostRep(9, 6, 1, 3));
  }

  /** A REP too early gives its ids to an idle flow, which the REQ then moves on. */
  lemma EarlyRep() returns (t: Tracker)
    ensures Run(EMPTY_TRACKER, [HostRep(9, 5, 1, 3), NetReq(9, 1, 7)]) == Ok(t) && Inv(t)
    ensures 5 in t.localMap && RemoteKey(9, 2) !in t.remoteMap
    ensures t.flows[t.localMap[5]] == Flow(ReqRcvd, 5, RemoteKey(9, 1), 0, 7, false)
  {
    HostRepAddsFlow(EMPTY_TRACKER, 9, 5, 1, 3);
    var t1 := Step(EMPTY_TRACKER, HostRep(9, 5, 1, 3)).value;
    RunTwo(HostRep(9, 5, 1, 3), NetReq(9, 1, 7));
    NetReqFindsFlow(t1, 9, 1, 7);
    t := Step(t1, NetReq(9, 1, 7)).value;
    RunKeepsInv(EMPTY_TRACKER, [HostRep(9, 5, 1, 3), NetReq(9, 1, 7)]);
  }

  lemma RemoteIdTakenIsLive()
    ensures Run(EMPTY_TRACKER, [HostRep(9, 5, 1, 3), NetReq(9, 1, 7), HostRep(9, 5, 2, 3)]) == Abort(RemoteIdTaken)
  {
    var t := EarlyRep();
    RunMore([HostRep(9, 5, 1, 3), NetReq(9, 1, 7)], HostRep(9, 5, 2, 3));
    AbortsExactlyAsPredicted(t, HostRep(9, 5, 2, 3));
  }

  /** Two flows, each known by one id. */
  lemma TwoRequests() returns (t: Tracker)
    ensures Run(EMPTY_TRACKER, [NetReq(9, 2, 7), HostReq(5, 3)]) == Ok(t) && Inv(t)
    ensures 5 in t.localMap && RemoteKey(9, 2) in t.remoteMap && t.remoteMap[RemoteKey(9, 2)] != t.localMap[5]
    ensures t.flows[t.localMap[5]].phase == ReqSent
  {
    NetReqAddsFlow(EMPTY_TRACKER, 9, 2, 7);
    var t1 := Step(EMPTY_TRACKER, NetReq(9, 2, 7)).value;
    HostReqAddsFlow(t1, 5, 3);
    RunTwo(NetReq(9, 2, 7), HostReq(5, 3));
    t := Step(t1, HostReq(5, 3)).value;
    RunKeepsInv(EMPTY_TRACKER, [NetReq(9, 2, 7), HostReq(5, 3)]);
  }

  lemma MapsDisagreeIsLive()
    ensures Run(EMPTY_TRACKER, [NetReq(9, 2, 7), HostReq(5, 3), NetRep(9, 5, 2, 7)]) == Abort(MapsDisagree)
  {
    var t := TwoRequests();
    RunMore([NetReq(9, 2, 7), HostReq(5, 3)], NetRep(9, 5, 2, 7));
    AbortsExactlyAsPredicted(t, NetRep(9, 5, 2, 7));
  }
}
