/** What every reachable tracker state satisfies, whatever packets arrived. */
module TrackerInvariant {
  import opened CmTypes
  import opened TrackerModel

  /** Each map enters a flow only under the id that flow records, and neither
      map has a zero or half-zero key. */
  ghost predicate IdsExact(t: Tracker) {
    && t.Closed()
    && (forall l :: l in t.localMap ==> l != 0 && t.flows[t.localMap[l]].localId == l)
    && (forall k :: k in t.remoteMap ==> k.Valid() && t.flows[t.remoteMap[k]].remoteId == k)
  }

  /** The phases some handler assigns. */
  predicate Tracked(phase: FlowPhase) {
    match phase
    case Idle | ReqSent | ReqRcvd | RepSent | RepRcvd | Established | DreqSent | DreqRcvd => true
    case _ => false
  }

  /** The phases from the RTU on. */
  predicate Connected(phase: FlowPhase) {
    phase.Established? || phase.DreqSent? || phase.DreqRcvd?
  }

  /** What the fields of one flow satisfy. */
  predicate FlowExact(f: Flow) {
    && Tracked(f.phase)
    && (f.remoteId == NO_KEY || f.remoteId.Valid())
    && (f.phase.ReqRcvd? || f.phase.RepSent? ==> f.remoteId.Valid())
    && (f.inQpnMap ==> Connected(f.phase) && f.localQpn != 0 && f.remoteQpn != 0)
  }

  ghost predicate FlowsExact(t: Tracker) {
    forall i :: 0 <= i < |t.flows| ==> FlowExact(t.flows[i])
  }

  /** Flow `i` is marked as being in the query table. */
  predicate Indexed(t: Tracker, i: int) {
    0 <= i < |t.flows| && t.flows[i].inQpnMap
  }

  predicate Owns(t: Tracker, i: int, key: FlowKey) {
    Indexed(t, i) && t.flows[i].Key() == key
  }

  /** Every indexed flow is entered under its local id and has its entry. */
  ghost predicate IndexedEntered(t: Tracker) {
    forall i :: Indexed(t, i) ==>
      && t.flows[i].localId in t.localMap
      && t.localMap[t.flows[i].localId] == i
      && t.flows[i].Key() in t.qpnMap
      && t.qpnMap[t.flows[i].Key()] == t.flows[i].localQpn
  }

  /** Every entry has an owner. */
  ghost predicate EntriesOwned(t: Tracker) {
    forall key :: key in t.qpnMap ==> exists i :: Owns(t, i, key)
  }

  /** No entry has two owners. */
  ghost predicate OwnersDistinct(t: Tracker) {
    forall i, j :: Indexed(t, i) && Indexed(t, j) && t.flows[i].Key() == t.flows[j].Key() ==> i == j
  }

  /** The query table is an exact index of the flows with `inQpnMap` set. */
  ghost predicate QpnMapExact(t: Tracker) {
    IndexedEntered(t) && EntriesOwned(t) && OwnersDistinct(t)
  }

  ghost predicate Inv(t: Tracker) {
    IdsExact(t) && FlowsExact(t) && QpnMapExact(t)
  }

  /** A state some run from the empty tracker leads to. */
  ghost predicate Reachable(t: Tracker) {
    exists ps :: Run(EMPTY_TRACKER, ps) == Ok(t)
  }

  // ---- The building blocks keep the invariant ----

  /** The query table stays exact while the indexed flows keep what it depends on. */
  lemma QpnMapCarriesOver(t: Tracker, u: Tracker)
    requires QpnMapExact(t) && u.qpnMap == t.qpnMap
    requires forall i :: Indexed(u, i) <==> Indexed(t, i)
    requires forall i :: Indexed(t, i) && Indexed(u, i) ==>
      && u.flows[i].Key() == t.flows[i].Key()
      && u.flows[i].localQpn == t.flows[i].localQpn
      && u.flows[i].localId == t.flows[i].localId
      && u.flows[i].localId in u.localMap && u.localMap[u.flows[i].localId] == i
    ensures QpnMapExact(u)
  {
    forall key | key in u.qpnMap
      ensures exists j :: Owns(u, j, key)
    {
      var j :| Owns(t, j, key);
      assert Owns(u, j, key);
    }
  }

  /** Replacing a flow by one with the same ids and mark and, if it is marked, the
      same QPNs. */
  lemma UpdateKeepsInv(t: Tracker, i: nat, f: Flow)
    requires Inv(t) && i < |t.flows|
    requires f.localId == t.flows[i].localId && f.remoteId == t.flows[i].remoteId
    requires f.inQpnMap == t.flows[i].inQpnMap
    requires f.inQpnMap ==> f.localQpn == t.flows[i].localQpn && f.remoteQpn == t.flows[i].remoteQpn
    requires FlowExact(f)
    ensures Inv(t.With(i, f))
  {
    var u := t.With(i, f);
    assert forall j :: Indexed(u, j) <==> Indexed(t, j);
    QpnMapCarriesOver(t, u);
  }

  lemma BindLocalKeepsInv(t: Tracker, i: nat, l: u32)
    requires Inv(t) && i < |t.flows|
    requires BindLocal(t, i, l).Ok?
    ensures Inv(BindLocal(t, i, l).value)
  {
    var u := BindLocal(t, i, l).value;
    if u != t {
      assert !Indexed(t, i);
      assert forall j :: Indexed(u, j) <==> Indexed(t, j);
      QpnMapCarriesOver(t, u);
    }
  }

  lemma BindRemoteKeepsInv(t: Tracker, i: nat, k: RemoteKey)
    requires Inv(t) && i < |t.flows|
    requires !t.flows[i].inQpnMap || k in t.remoteMap
    requires BindRemote(t, i, k).Ok?
    ensures Inv(BindRemote(t, i, k).value)
  {
    var u := BindRemote(t, i, k).value;
    if u != t {
      assert forall j :: Indexed(u, j) <==> Indexed(t, j);
      QpnMapCarriesOver(t, u);
    }
  }

  lemma NewFlowKeepsInv(t: Tracker)
    requires Inv(t)
    ensures Inv(t.(flows := t.flows + [NEW_FLOW]))
  {
    var u := t.(flows := t.flows + [NEW_FLOW]);
    assert forall j :: Indexed(u, j) <==> Indexed(t, j);
    QpnMapCarriesOver(t, u);
  }

  /** A flow found by local id that is about to get a remote key must not be
      indexed yet: its key would move under the table's feet. */
  ghost predicate MayLink(t: Tracker, l: u32, k: RemoteKey)
    requires t.Closed()
  {
    l in t.localMap && k !in t.remoteMap ==> !t.flows[t.localMap[l]].inQpnMap
  }

  lemma AddNewFlowKeepsInv(t: Tracker, l: u32, k: RemoteKey)
    requires Inv(t) && MayLink(t, l, k)
    requires AddNewFlow(t, l, k).Ok?
    ensures Inv(AddNewFlow(t, l, k).value.tracker)
  {
    if l in t.localMap && k in t.remoteMap {
    } else {
      var isNew := l !in t.localMap && k !in t.remoteMap;
      var u := if isNew then t.(flows := t.flows + [NEW_FLOW]) else t;
      if isNew {
        NewFlowKeepsInv(t);
      }
      var i := if isNew then |t.flows| else if l in t.localMap then t.localMap[l] else t.remoteMap[k];
      BindLocalKeepsInv(u, i, l);
      BindRemoteKeepsInv(BindLocal(u, i, l).value, i, k);
    }
  }

  lemma GetFlowKeepsInv(t: Tracker, l: u32, k: RemoteKey)
    requires Inv(t) && GetFlow(t, l, k).Ok?
    ensures Inv(GetFlow(t, l, k).value.tracker)
  {
    if l != 0 && l in t.localMap {
    } else if l == 0 && k in t.remoteMap {
    } else {
      AddNewFlowKeepsInv(t, l, k);
    }
  }

  /** Where the lookup leaves the flow it returns. */
  ghost predicate FoundUnder(t: Tracker, i: nat, l: u32, k: RemoteKey) {
    if l != 0 then l in t.localMap && t.localMap[l] == i
    else k in t.remoteMap && t.remoteMap[k] == i
  }

  lemma GetFlowFinds(t: Tracker, l: u32, k: RemoteKey)
    requires IdsExact(t) && GetFlow(t, l, k).Ok?
    ensures var at := GetFlow(t, l, k).value; FoundUnder(at.tracker, at.flow, l, k)
  { }

  /** The lookup of a packet whose flow is there already changes nothing. */
  lemma LookupAgain(t: Tracker, i: nat, p: Packet)
    requires IdsExact(t) && FoundUnder(t, i, p.LocalId(), p.PeerKey())
    requires p.LocalId() != 0 || p.LookupKey().Valid()
    ensures GetFlow(t, p.LocalId(), p.LookupKey()) == Ok(Located(t, i))
  { }

  /** The flow an unknown pair of ids gets. */
  lemma LookupUnknown(u: Tracker, l: u32, k: RemoteKey)
    requires u.Closed() && l !in u.localMap && k !in u.remoteMap && (l != 0 || k.Valid())
    ensures
      var f := NEW_FLOW.(localId := l, remoteId := if k.Valid() then k else NO_KEY);
      GetFlow(u, l, k) == Ok(Located(Tracker(u.flows + [f],
                                             if l == 0 then u.localMap else u.localMap[l := |u.flows|],
                                             if k.Valid() then u.remoteMap[k := |u.flows|] else u.remoteMap,
                                             u.qpnMap), |u.flows|))
  {
    var n := |u.flows|;
    var f := NEW_FLOW.(localId := l);
    assert (u.flows + [NEW_FLOW])[n := f] == u.flows + [f];
    assert forall g :: (u.flows + [f])[n := g] == u.flows + [g];
  }

  /** The first half of every handler. */
  lemma LookupKeepsInv(t: Tracker, p: Packet)
    requires Inv(t) && GetFlow(t, p.LocalId(), p.LookupKey()).Ok?
    ensures
      var at := GetFlow(t, p.LocalId(), p.LookupKey()).value;
      Inv(at.tracker) && FoundUnder(at.tracker, at.flow, p.LocalId(), p.PeerKey())
  {
    GetFlowKeepsInv(t, p.LocalId(), p.LookupKey());
    GetFlowFinds(t, p.LocalId(), p.LookupKey());
  }

  lemma InsertKeepsEntered(t: Tracker, i: nat)
    requires t.Closed() && i < |t.flows| && IndexedEntered(t) && OwnersDistinct(t) && !Indexed(t, i)
    requires t.flows[i].localId in t.localMap && t.localMap[t.flows[i].localId] == i
    ensures IndexedEntered(OnEstablished(t, i)) && OwnersDistinct(OnEstablished(t, i))
  { }

  lemma InsertKeepsOwned(t: Tracker, i: nat)
    requires t.Closed() && i < |t.flows| && EntriesOwned(t)
    ensures EntriesOwned(OnEstablished(t, i))
  {
    var u := OnEstablished(t, i);
    forall key | key in u.qpnMap
      ensures exists j :: Owns(u, j, key)
    {
      if key in t.qpnMap {
        var j :| Owns(t, j, key);
        assert Owns(u, j, key);
      } else {
        assert Owns(u, i, key);
      }
    }
  }

  lemma InsertKeepsFlows(t: Tracker, i: nat)
    requires IdsExact(t) && FlowsExact(t) && i < |t.flows| && t.flows[i].phase == Established
    ensures IdsExact(OnEstablished(t, i)) && FlowsExact(OnEstablished(t, i))
  { }

  lemma OnEstablishedKeepsInv(t: Tracker, i: nat)
    requires Inv(t) && i < |t.flows|
    requires t.flows[i].phase == Established && !t.flows[i].inQpnMap
    requires t.flows[i].localId in t.localMap && t.localMap[t.flows[i].localId] == i
    ensures Inv(OnEstablished(t, i))
  {
    InsertKeepsEntered(t, i);
    InsertKeepsOwned(t, i);
    InsertKeepsFlows(t, i);
  }

  lemma RemoveKeepsEntered(t: Tracker, i: nat)
    requires t.Closed() && IndexedEntered(t) && OwnersDistinct(t) && Indexed(t, i)
    requires DisconnectExit(t, i) == Removed
    ensures IndexedEntered(OnDisconnected(t, i)) && OwnersDistinct(OnDisconnected(t, i))
  { }

  lemma RemoveKeepsOwned(t: Tracker, i: nat)
    requires t.Closed() && EntriesOwned(t) && Indexed(t, i)
    ensures EntriesOwned(OnDisconnected(t, i))
  {
    var u := OnDisconnected(t, i);
    forall key | key in u.qpnMap
      ensures exists j :: Owns(u, j, key)
    {
      var j :| Owns(t, j, key);
      assert Owns(u, j, key);
    }
  }

  lemma RemoveKeepsFlows(t: Tracker, i: nat)
    requires IdsExact(t) && FlowsExact(t) && i < |t.flows|
    ensures IdsExact(OnDisconnected(t, i)) && FlowsExact(OnDisconnected(t, i))
  { }

  lemma OnDisconnectedKeepsInv(t: Tracker, i: nat)
    requires Inv(t) && Indexed(t, i)
    ensures DisconnectExit(t, i) == Removed
    ensures Inv(OnDisconnected(t, i)) && !OnDisconnected(t, i).flows[i].inQpnMap
  {
    RemoveKeepsEntered(t, i);
    RemoveKeepsOwned(t, i);
    RemoveKeepsFlows(t, i);
  }

  lemma UnbindKeepsInv(t: Tracker, l: u32, k: RemoteKey)
    requires Inv(t)
    requires l in t.localMap ==> !t.flows[t.localMap[l]].inQpnMap
    ensures Inv(t.(localMap := t.localMap - {l}, remoteMap := t.remoteMap - {k}))
  {
    var u := t.(localMap := t.localMap - {l}, remoteMap := t.remoteMap - {k});
    assert forall j :: Indexed(u, j) <==> Indexed(t, j);
    QpnMapCarriesOver(t, u);
  }

  lemma EraseFlowKeepsInv(t: Tracker, l: u32, k: RemoteKey)
    requires Inv(t) && EraseFlow(t, l, k).Ok?
    ensures Inv(EraseFlow(t, l, k).value)
  {
    if ErasedIndex(t, l, k).Some? {
      var i := ErasedIndex(t, l, k).value;
      if t.flows[i].inQpnMap {
        OnDisconnectedKeepsInv(t, i);
        UnbindKeepsInv(OnDisconnected(t, i), l, k);
      } else {
        UnbindKeepsInv(t, l, k);
      }
    }
  }

  /** The state an erase leaves. */
  lemma EraseLeaves(t: Tracker, i: nat, l: u32, k: RemoteKey)
    requires Inv(t) && i < |t.flows| && FoundUnder(t, i, l, k)
    ensures EraseFlow(t, l, k).Ok?
    ensures
      var u := EraseFlow(t, l, k).value;
      && u.flows == t.flows[i := t.flows[i].(inQpnMap := false)]
      && u.localMap == t.localMap - {l} && u.remoteMap == t.remoteMap - {k}
      && u.qpnMap == if t.flows[i].inQpnMap then t.qpnMap - {t.flows[i].Key()} else t.qpnMap
  {
    if t.flows[i].inQpnMap {
      OnDisconnectedKeepsInv(t, i);
    } else {
      assert t.flows[i := t.flows[i].(inQpnMap := false)] == t.flows;
    }
  }

  /** A handler's own assignments leave the ids and the mark alone, and the QPNs
      of a marked flow. */
  predicate SameIdentity(f: Flow, g: Flow) {
    && g.localId == f.localId && g.remoteId == f.remoteId && g.inQpnMap == f.inQpnMap
    && (f.inQpnMap ==> g.localQpn == f.localQpn && g.remoteQpn == f.remoteQpn)
  }

  /** What the twelve handlers have in common. */
  predicate Sound(p: Packet, f: Flow, a: Action) {
    match a
    case Ignore => true
    case Update(g) => SameIdentity(f, g) && FlowExact(g)
    case UpdateAndLink(g) => SameIdentity(f, g) && FlowExact(g) && !f.inQpnMap && p.msg.Rep?
    case Establish => (f.phase.RepSent? || f.phase.RepRcvd?) && p.msg.Rtu?
    case Erase => p.msg.Rej? || p.msg.Drep?
    case Fail(e) => e == ReqQpnChanged
  }

  lemma ApplyKeepsInv(t: Tracker, i: nat, p: Packet, a: Action)
    requires Inv(t) && i < |t.flows| && FoundUnder(t, i, p.LocalId(), p.PeerKey())
    requires Sound(p, t.flows[i], a) && Apply(t, i, p, a).Ok?
    ensures Inv(Apply(t, i, p, a).value)
  {
    match a
    case Ignore =>
    case Update(f) =>
      UpdateKeepsInv(t, i, f);
    case UpdateAndLink(f) =>
      UpdateKeepsInv(t, i, f);
      AddNewFlowKeepsInv(t.With(i, f), p.LocalId(), p.PeerKey());
    case Establish =>
      var f := t.flows[i].(phase := Established);
      assert FlowExact(t.flows[i]);
      UpdateKeepsInv(t, i, f);
      OnEstablishedKeepsInv(t.With(i, f), i);
    case Erase =>
      EraseFlowKeepsInv(t, p.LocalId(), p.PeerKey());
  }

  /** Every packet, in either direction, keeps the invariant. */
  lemma StepKeepsInv(t: Tracker, p: Packet)
    requires Inv(t) && Step(t, p).Ok?
    ensures Inv(Step(t, p).value)
  {
    if !p.msg.Other? {
      LookupKeepsInv(t, p);
      var at := GetFlow(t, p.LocalId(), p.LookupKey()).value;
      FoundDecision(at.tracker, at.flow, p);
      ApplyKeepsInv(at.tracker, at.flow, p, Decide(p, at.tracker.flows[at.flow]));
    }
  }

  lemma FoundDecision(t: Tracker, i: nat, p: Packet)
    requires Inv(t) && i < |t.flows| && FoundUnder(t, i, p.LocalId(), p.PeerKey())
    ensures Sound(p, t.flows[i], Decide(p, t.flows[i]))
  { }

  lemma {:induction false} RunKeepsInv(t: Tracker, ps: seq<Packet>)
    requires Inv(t) && Run(t, ps).Ok?
    ensures Inv(Run(t, ps).value)
  {
    if ps != [] {
      RunKeepsInv(t, ps[..|ps| - 1]);
      StepKeepsInv(Run(t, ps[..|ps| - 1]).value, ps[|ps| - 1]);
    }
  }

  lemma ReachableHasInv(t: Tracker)
    requires Reachable(t)
    ensures Inv(t)
  {
    var ps :| Run(EMPTY_TRACKER, ps) == Ok(t);
    RunKeepsInv(EMPTY_TRACKER, ps);
  }
}
