/** When the two id maps agree on which flows they hold. */
module Agreement {
  import opened CmTypes
  import opened TrackerModel
  import opened TrackerInvariant
  import opened Asserts
  import opened Handlers

  /** Flow `i` is in each map whose id it has recorded. */
  ghost predicate Entered(t: Tracker, i: nat)
    requires i < |t.flows|
  {
    var f := t.flows[i];
    && (f.localId != 0 ==> f.localId in t.localMap && t.localMap[f.localId] == i)
    && (f.remoteId.Valid() ==> f.remoteId in t.remoteMap && t.remoteMap[f.remoteId] == i)
  }

  ghost predicate Agree(t: Tracker)
    requires t.Closed()
  {
    && (forall l :: l in t.localMap ==> Entered(t, t.localMap[l]))
    && (forall k :: k in t.remoteMap ==> Entered(t, t.remoteMap[k]))
  }

  lemma BindLocalKeepsAgree(t: Tracker, i: nat, l: u32)
    requires IdsExact(t) && Agree(t) && i < |t.flows| && Entered(t, i)
    requires BindLocal(t, i, l).Ok?
    ensures var u := BindLocal(t, i, l).value; IdsExact(u) && Agree(u) && Entered(u, i)
  { }

  lemma BindRemoteKeepsAgree(t: Tracker, i: nat, k: RemoteKey)
    requires IdsExact(t) && Agree(t) && i < |t.flows| && Entered(t, i)
    requires BindRemote(t, i, k).Ok?
    ensures Agree(BindRemote(t, i, k).value)
  { }

  lemma BindKeepsAgree(t: Tracker, i: nat, l: u32, k: RemoteKey)
    requires IdsExact(t) && Agree(t) && i < |t.flows| && Entered(t, i)
    requires Bind(t, i, l, k).Ok?
    ensures Agree(Bind(t, i, l, k).value.tracker)
  {
    BindLocalKeepsAgree(t, i, l);
    BindRemoteKeepsAgree(BindLocal(t, i, l).value, i, k);
  }

  lemma AddNewFlowKeepsAgree(t: Tracker, l: u32, k: RemoteKey)
    requires IdsExact(t) && Agree(t) && AddNewFlow(t, l, k).Ok?
    ensures Agree(AddNewFlow(t, l, k).value.tracker)
  {
    if l in t.localMap && k in t.remoteMap {
    } else if l !in t.localMap && k !in t.remoteMap {
      var u := t.(flows := t.flows + [NEW_FLOW]);
      assert forall i :: 0 <= i < |t.flows| && Entered(t, i) ==> Entered(u, i);
      BindKeepsAgree(u, |t.flows|, l, k);
    } else {
      BindKeepsAgree(t, if l in t.localMap then t.localMap[l] else t.remoteMap[k], l, k);
    }
  }

  lemma UpdateKeepsAgree(t: Tracker, i: nat, f: Flow)
    requires t.Closed() && Agree(t) && i < |t.flows| && SameIdentity(t.flows[i], f)
    ensures Agree(t.With(i, f))
  { }

  /** What an erasing packet has to get right about the flow `i` it erases, in
      state `t`: it omits no id that flow recorded, and the peer key it names is
      not that of another flow which has a local id. */
  predicate NamesWholeFlow(t: Tracker, i: nat, l: u32, k: RemoteKey)
    requires t.Closed() && i < |t.flows|
  {
    && (t.flows[i].localId != 0 ==> l == t.flows[i].localId)
    && (t.flows[i].remoteId.Valid() ==> k == t.flows[i].remoteId)
    && (k in t.remoteMap && t.remoteMap[k] != i ==> t.flows[t.remoteMap[k]].localId == 0)
  }

  lemma UnbindAgrees(t: Tracker, i: nat, l: u32, k: RemoteKey)
    requires IdsExact(t) && Agree(t) && i < |t.flows| && FoundUnder(t, i, l, k)
    ensures
      var u := t.(localMap := t.localMap - {l}, remoteMap := t.remoteMap - {k});
      Agree(u) <==> NamesWholeFlow(t, i, l, k)
  {
    var u := t.(localMap := t.localMap - {l}, remoteMap := t.remoteMap - {k});
    var f := t.flows[i];
    if NamesWholeFlow(t, i, l, k) {
      forall j | 0 <= j < |t.flows| && Entered(t, j) && !Entered(u, j)
        ensures (forall m :: m in u.localMap ==> u.localMap[m] != j)
             && (forall m :: m in u.remoteMap ==> u.remoteMap[m] != j)
      { }
    } else if l == 0 {
      assert f.localId in u.localMap && !Entered(u, i);
    } else if f.remoteId.Valid() && k != f.remoteId {
      assert f.remoteId in u.remoteMap && !Entered(u, i);
    } else {
      var j := t.remoteMap[k];
      assert t.flows[j].localId in u.localMap && !Entered(u, j);
    }
  }

  lemma UnmarkKeepsIds(t: Tracker, i: nat)
    requires IdsExact(t) && i < |t.flows|
    ensures
      var u := OnDisconnected(t, i);
      && u.localMap == t.localMap && u.remoteMap == t.remoteMap && IdsExact(u)
      && forall j :: 0 <= j < |t.flows| ==>
           u.flows[j].localId == t.flows[j].localId && u.flows[j].remoteId == t.flows[j].remoteId
  { }

  lemma EraseAgrees(t: Tracker, i: nat, l: u32, k: RemoteKey)
    requires IdsExact(t) && Agree(t) && i < |t.flows| && FoundUnder(t, i, l, k)
    ensures EraseFlow(t, l, k).Ok? && (Agree(EraseFlow(t, l, k).value) <==> NamesWholeFlow(t, i, l, k))
  {
    if t.flows[i].inQpnMap {
      UnmarkKeepsIds(t, i);
      var u := OnDisconnected(t, i);
      assert forall j :: 0 <= j < |t.flows| ==> (Entered(t, j) <==> Entered(u, j));
      UnbindAgrees(u, i, l, k);
    } else {
      UnbindAgrees(t, i, l, k);
    }
  }

  /** A REJ or DREP whose ids lead to a flow in a phase where it erases. */
  predicate Erases(t: Tracker, p: Packet)
    requires t.Closed()
  {
    && (p.msg.Rej? || p.msg.Drep?)
    && var found := ErasedIndex(t, p.LocalId(), p.PeerKey());
    found.Some? && t.flows[found.value].phase in ErasingPhases(p)
  }

  predicate NamesWholeTarget(t: Tracker, p: Packet)
    requires t.Closed() && Erases(t, p)
  {
    NamesWholeFlow(t, ErasedIndex(t, p.LocalId(), p.PeerKey()).value, p.LocalId(), p.PeerKey())
  }

  /** A flow that a lookup made, or gave its local id, has the ids looked up and
      no others. */
  lemma NewcomerIsNamed(t: Tracker, l: u32, k: RemoteKey)
    requires IdsExact(t) && GetFlow(t, l, k).Ok? && ErasedIndex(t, l, k).None?
    ensures var at := GetFlow(t, l, k).value; NamesWholeFlow(at.tracker, at.flow, l, k)
  {
    LookupFlow(t, l, k);
    LookupAborts(t, l, k);
    GetFlowFinds(t, l, k);
  }

  /** The state before the lookup already tells whether the packet erases, and
      whether it then names its whole flow. */
  lemma ErasesBeforehand(t: Tracker, p: Packet)
    requires Inv(t) && (p.msg.Rej? || p.msg.Drep?) && GetFlow(t, p.LocalId(), p.LookupKey()).Ok?
    ensures
      var at := GetFlow(t, p.LocalId(), p.LookupKey()).value;
      (Decide(p, at.tracker.flows[at.flow]).Erase? ==>
         NamesWholeFlow(at.tracker, at.flow, p.LocalId(), p.PeerKey())) <==>
      (Erases(t, p) ==> NamesWholeTarget(t, p))
  {
    if ErasedIndex(t, p.LocalId(), p.PeerKey()).None? {
      if p.msg.Rej? {
        NewcomerIsNamed(t, p.LocalId(), p.PeerKey());
      } else {
        LookupFlow(t, p.LocalId(), NO_KEY);
      }
    } else {
      var f := t.flows[ErasedIndex(t, p.LocalId(), p.PeerKey()).value];
      assert FlowExact(f);
      DecidesByPhase(p, f);
    }
  }

  lemma EstablishKeepsAgree(t: Tracker, i: nat)
    requires t.Closed() && Agree(t) && i < |t.flows|
    ensures Agree(OnEstablished(t.With(i, t.flows[i].(phase := Established)), i))
  { }

  lemma ApplyAgrees(t: Tracker, i: nat, p: Packet, a: Action)
    requires IdsExact(t) && Agree(t) && i < |t.flows| && FoundUnder(t, i, p.LocalId(), p.PeerKey())
    requires Sound(p, t.flows[i], a) && Apply(t, i, p, a).Ok?
    ensures Agree(Apply(t, i, p, a).value) <==> (a.Erase? ==> NamesWholeFlow(t, i, p.LocalId(), p.PeerKey()))
  {
    match a
    case Ignore =>
    case Update(f) =>
      UpdateKeepsAgree(t, i, f);
    case UpdateAndLink(f) =>
      UpdateKeepsAgree(t, i, f);
      AddNewFlowKeepsAgree(t.With(i, f), p.LocalId(), p.PeerKey());
    case Establish =>
      EstablishKeepsAgree(t, i);
    case Erase =>
      EraseAgrees(t, i, p.LocalId(), p.PeerKey());
  }

  /** One packet keeps the maps in agreement exactly when it does not erase, or
      erases naming the whole flow; both are read off the maps beforehand. */
  lemma StepAgrees(t: Tracker, p: Packet)
    requires Inv(t) && Agree(t) && Step(t, p).Ok?
    ensures Agree(Step(t, p).value) <==> (Erases(t, p) ==> NamesWholeTarget(t, p))
  {
    if !p.msg.Other? {
      var at := GetFlow(t, p.LocalId(), p.LookupKey()).value;
      LookupKeepsInv(t, p);
      LookupKeepsAgree(t, p.LocalId(), p.LookupKey());
      FoundDecision(at.tracker, at.flow, p);
      if p.msg.Rej? || p.msg.Drep? {
        ErasesBeforehand(t, p);
      }
      ApplyAgrees(at.tracker, at.flow, p, Decide(p, at.tracker.flows[at.flow]));
    }
  }

  lemma LookupKeepsAgree(t: Tracker, l: u32, k: RemoteKey)
    requires IdsExact(t) && Agree(t) && GetFlow(t, l, k).Ok?
    ensures Agree(GetFlow(t, l, k).value.tracker)
  {
    if GetFlow(t, l, k).value.tracker != t {
      AddNewFlowKeepsAgree(t, l, k);
    }
  }

  /** Every erasing packet of the run names its whole flow. */
  ghost predicate ErasesWholeFlows(t: Tracker, ps: seq<Packet>)
    requires t.Closed() && Run(t, ps).Ok?
  {
    if ps == [] then true
    else
      var u := Run(t, ps[..|ps| - 1]).value;
      && ErasesWholeFlows(t, ps[..|ps| - 1])
      && (Erases(u, ps[|ps| - 1]) ==> NamesWholeTarget(u, ps[|ps| - 1]))
  }

  lemma {:induction false} RunAgrees(t: Tracker, ps: seq<Packet>)
    requires Inv(t) && Agree(t) && Run(t, ps).Ok? && ErasesWholeFlows(t, ps)
    ensures Agree(Run(t, ps).value)
  {
    if ps != [] {
      var front := ps[..|ps| - 1];
      RunAgrees(t, front);
      RunKeepsInv(t, front);
      StepAgrees(Run(t, front).value, ps[|ps| - 1]);
    }
  }
}
