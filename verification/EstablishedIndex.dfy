/** When every established flow has its entry in the query table. */
module EstablishedIndex {
  import opened CmTypes
  import opened TrackerModel
  import opened TrackerInvariant
  import opened Asserts
  import opened ExactIndex

  predicate IndexedIfUp(f: Flow) {
    f.phase.Established? ==> f.inQpnMap
  }

  /** Every established flow that an id map holds is marked, so by the invariant it
      has its own entry in the query table. */
  ghost predicate EstablishedIndexed(t: Tracker)
    requires t.Closed()
  {
    && (forall l :: l in t.localMap ==> IndexedIfUp(t.flows[t.localMap[l]]))
    && (forall k :: k in t.remoteMap ==> IndexedIfUp(t.flows[t.remoteMap[k]]))
  }

  /** Flow `i` can get an entry: both QPNs are nonzero and the key is free. */
  predicate CanEnter(t: Tracker, i: nat)
    requires i < |t.flows|
  {
    t.flows[i].localQpn != 0 && t.flows[i].remoteQpn != 0 && t.flows[i].Key() !in t.qpnMap
  }

  /** Erasing under `l` and `k` takes the marked flow `i` out of every map that
      holds it. */
  predicate NamesEveryEntry(t: Tracker, i: nat, l: u32, k: RemoteKey)
    requires i < |t.flows|
  {
    var f := t.flows[i];
    && l == f.localId
    && (f.remoteId in t.remoteMap && t.remoteMap[f.remoteId] == i ==> k == f.remoteId)
  }

  /** A received REJ that finds an established flow. */
  predicate RejectsEstablished(t: Tracker, p: Packet)
    requires t.Closed()
  {
    && p.msg.Rej? && p.dir.FromNet?
    && var found := ErasedIndex(t, p.LocalId(), p.PeerKey());
    found.Some? && t.flows[found.value].phase.Established?
  }

  /** What a packet must satisfy, read off the maps before it is processed. */
  predicate KeepsEntries(t: Tracker, p: Packet)
    requires t.Closed()
  {
    && (Establishes(t, p) ==> CanEnter(t, t.localMap[p.LocalId()]))
    && (RejectsEstablished(t, p) ==>
          NamesEveryEntry(t, ErasedIndex(t, p.LocalId(), p.PeerKey()).value, p.LocalId(), p.PeerKey()))
  }

  // ---- The two halves of a handler ----

  lemma UpdateKeepsIndexed(t: Tracker, i: nat, f: Flow)
    requires t.Closed() && EstablishedIndexed(t) && i < |t.flows| && IndexedIfUp(f)
    ensures EstablishedIndexed(t.With(i, f))
  { }

  lemma BindLocalKeepsIndexed(t: Tracker, i: nat, l: u32)
    requires t.Closed() && EstablishedIndexed(t) && i < |t.flows| && IndexedIfUp(t.flows[i])
    requires BindLocal(t, i, l).Ok?
    ensures EstablishedIndexed(BindLocal(t, i, l).value) && IndexedIfUp(BindLocal(t, i, l).value.flows[i])
  {
    UpdateKeepsIndexed(t, i, t.flows[i].(localId := l));
  }

  lemma BindRemoteKeepsIndexed(t: Tracker, i: nat, k: RemoteKey)
    requires t.Closed() && EstablishedIndexed(t) && i < |t.flows| && IndexedIfUp(t.flows[i])
    requires BindRemote(t, i, k).Ok?
    ensures EstablishedIndexed(BindRemote(t, i, k).value)
  {
    UpdateKeepsIndexed(t, i, t.flows[i].(remoteId := k));
  }

  lemma BindKeepsIndexed(t: Tracker, i: nat, l: u32, k: RemoteKey)
    requires t.Closed() && EstablishedIndexed(t) && i < |t.flows| && IndexedIfUp(t.flows[i])
    requires Bind(t, i, l, k).Ok?
    ensures EstablishedIndexed(Bind(t, i, l, k).value.tracker)
  {
    BindLocalKeepsIndexed(t, i, l);
    BindRemoteKeepsIndexed(BindLocal(t, i, l).value, i, k);
  }

  lemma LinkKeepsIndexed(t: Tracker, l: u32, k: RemoteKey)
    requires t.Closed() && EstablishedIndexed(t) && AddNewFlow(t, l, k).Ok?
    ensures EstablishedIndexed(AddNewFlow(t, l, k).value.tracker)
  {
    if l in t.localMap && k in t.remoteMap {
    } else if l !in t.localMap && k !in t.remoteMap {
      BindKeepsIndexed(t.(flows := t.flows + [NEW_FLOW]), |t.flows|, l, k);
    } else {
      BindKeepsIndexed(t, if l in t.localMap then t.localMap[l] else t.remoteMap[k], l, k);
    }
  }

  lemma LookupKeepsIndexed(t: Tracker, l: u32, k: RemoteKey)
    requires t.Closed() && EstablishedIndexed(t) && GetFlow(t, l, k).Ok?
    ensures EstablishedIndexed(GetFlow(t, l, k).value.tracker)
  {
    if GetFlow(t, l, k).value.tracker != t {
      LinkKeepsIndexed(t, l, k);
    }
  }

  lemma EstablishIndexes(t: Tracker, i: nat, l: u32)
    requires Inv(t) && EstablishedIndexed(t) && l in t.localMap && t.localMap[l] == i && !t.flows[i].inQpnMap
    ensures
      EstablishedIndexed(OnEstablished(t.With(i, t.flows[i].(phase := Established)), i)) <==> CanEnter(t, i)
  {
    var u := OnEstablished(t.With(i, t.flows[i].(phase := Established)), i);
    assert u.localMap == t.localMap;
    assert u.flows[u.localMap[l]].phase.Established?;
  }

  /** An established flow loses its entry with the first id it loses, so it must
      lose them all. */
  lemma EraseStrips(t: Tracker, i: nat, l: u32, k: RemoteKey)
    requires Inv(t) && EstablishedIndexed(t) && i < |t.flows| && FoundUnder(t, i, l, k)
    ensures EraseFlow(t, l, k).Ok?
    ensures
      EstablishedIndexed(EraseFlow(t, l, k).value) <==>
      (t.flows[i].phase.Established? ==> NamesEveryEntry(t, i, l, k))
  {
    EraseLeaves(t, i, l, k);
    var u, f := EraseFlow(t, l, k).value, t.flows[i].(inQpnMap := false);
    if f.phase.Established? {
      assert Indexed(t, i);
      StripExactly(t, u, i, l, k);
    } else {
      UpdateKeepsIndexed(t, i, f);
      RestrictKeepsIndexed(t.With(i, f), u, l, k);
    }
  }

  lemma RestrictKeepsIndexed(t: Tracker, u: Tracker, l: u32, k: RemoteKey)
    requires t.Closed() && u.Closed() && EstablishedIndexed(t) && u.flows == t.flows
    requires u.localMap == t.localMap - {l} && u.remoteMap == t.remoteMap - {k}
    ensures EstablishedIndexed(u)
  { }

  lemma StripExactly(t: Tracker, u: Tracker, i: nat, l: u32, k: RemoteKey)
    requires IdsExact(t) && EstablishedIndexed(t) && u.Closed() && i < |t.flows| && t.flows[i].phase.Established?
    requires t.flows[i].localId in t.localMap && t.localMap[t.flows[i].localId] == i
    requires u.flows == t.flows[i := t.flows[i].(inQpnMap := false)]
    requires u.localMap == t.localMap - {l} && u.remoteMap == t.remoteMap - {k}
    ensures EstablishedIndexed(u) <==> NamesEveryEntry(t, i, l, k)
  {
    var f := t.flows[i];
    if NamesEveryEntry(t, i, l, k) {
      StrippedIsGone(t, u, i, l, k);
    } else if l != f.localId {
      assert u.localMap[f.localId] == i;
    } else {
      assert u.remoteMap[f.remoteId] == i;
    }
  }

  lemma StrippedIsGone(t: Tracker, u: Tracker, i: nat, l: u32, k: RemoteKey)
    requires IdsExact(t) && EstablishedIndexed(t) && u.Closed() && i < |t.flows|
    requires u.flows == t.flows[i := t.flows[i].(inQpnMap := false)] && NamesEveryEntry(t, i, l, k)
    requires u.localMap == t.localMap - {l} && u.remoteMap == t.remoteMap - {k}
    ensures EstablishedIndexed(u)
  {
    forall m | m in u.localMap
      ensures IndexedIfUp(u.flows[u.localMap[m]])
    {
      assert u.localMap[m] == t.localMap[m] != i;
    }
    forall m | m in u.remoteMap
      ensures IndexedIfUp(u.flows[u.remoteMap[m]])
    {
      assert u.remoteMap[m] == t.remoteMap[m] != i;
    }
  }

  lemma ApplyIndexed(t: Tracker, i: nat, p: Packet, a: Action)
    requires Inv(t) && EstablishedIndexed(t) && i < |t.flows| && FoundUnder(t, i, p.LocalId(), p.PeerKey())
    requires a == Decide(p, t.flows[i]) && Apply(t, i, p, a).Ok? && (p.msg.Rtu? ==> p.LocalId() != 0)
    ensures
      EstablishedIndexed(Apply(t, i, p, a).value) <==>
      && (a.Establish? ==> CanEnter(t, i))
      && (a.Erase? && t.flows[i].phase.Established? ==> NamesEveryEntry(t, i, p.LocalId(), p.PeerKey()))
  {
    FoundDecision(t, i, p);
    assert FlowExact(t.flows[i]);
    match a
    case Ignore =>
    case Update(f) =>
      UpdateKeepsIndexed(t, i, f);
    case UpdateAndLink(f) =>
      UpdateKeepsIndexed(t, i, f);
      LinkKeepsIndexed(t.With(i, f), p.LocalId(), p.PeerKey());
    case Establish =>
      EstablishIndexes(t, i, p.LocalId());
    case Erase =>
      EraseStrips(t, i, p.LocalId(), p.PeerKey());
  }

  /** A flow that a lookup made, or gave its local id, is not established. */
  lemma NewcomerIsNotUp(t: Tracker, l: u32, k: RemoteKey)
    requires Inv(t) && EstablishedIndexed(t) && GetFlow(t, l, k).Ok? && ErasedIndex(t, l, k).None?
    ensures var at := GetFlow(t, l, k).value; !at.tracker.flows[at.flow].phase.Established?
  {
    LookupFlow(t, l, k);
    LookupAborts(t, l, k);
    assert k in t.remoteMap ==> t.flows[t.remoteMap[k]].inQpnMap == Indexed(t, t.remoteMap[k]);
  }

  /** Only a flow that the RTU's local id already leads to is established by it. */
  lemma EstablishedBeforehand(t: Tracker, p: Packet)
    requires Inv(t) && p.msg.Rtu? && GetFlow(t, p.LocalId(), p.LookupKey()).Ok?
    ensures
      var at := GetFlow(t, p.LocalId(), p.LookupKey()).value;
      && (Establishes(t, p) <==> Decide(p, at.tracker.flows[at.flow]).Establish?)
      && (Establishes(t, p) ==> at == Located(t, t.localMap[p.LocalId()]))
  {
    LookupFlow(t, p.LocalId(), p.LookupKey());
    LookupAborts(t, p.LocalId(), p.LookupKey());
    LookupKeepsInv(t, p);
    var at := GetFlow(t, p.LocalId(), p.LookupKey()).value;
    assert FlowExact(at.tracker.flows[at.flow]);
  }

  /** Only an established flow that the REJ's ids already lead to is erased by it. */
  lemma RejectedBeforehand(t: Tracker, p: Packet)
    requires Inv(t) && EstablishedIndexed(t) && p.msg.Rej? && GetFlow(t, p.LocalId(), p.LookupKey()).Ok?
    ensures
      var at := GetFlow(t, p.LocalId(), p.LookupKey()).value;
      var f := at.tracker.flows[at.flow];
      && (RejectsEstablished(t, p) <==> Decide(p, f).Erase? && f.phase.Established?)
      && (RejectsEstablished(t, p) ==> at == Located(t, ErasedIndex(t, p.LocalId(), p.PeerKey()).value))
  {
    if ErasedIndex(t, p.LocalId(), p.PeerKey()).None? {
      NewcomerIsNotUp(t, p.LocalId(), p.PeerKey());
    }
  }

  /** One packet keeps every established flow in the table exactly when an RTU's
      flow can enter it, and a received REJ names an established flow by every id
      it is entered under. */
  lemma StepKeepsIndexed(t: Tracker, p: Packet)
    requires Inv(t) && EstablishedIndexed(t) && Step(t, p).Ok?
    ensures EstablishedIndexed(Step(t, p).value) <==> KeepsEntries(t, p)
  {
    if !p.msg.Other? {
      var at := GetFlow(t, p.LocalId(), p.LookupKey()).value;
      LookupKeepsInv(t, p);
      LookupKeepsIndexed(t, p.LocalId(), p.LookupKey());
      FoundDecision(at.tracker, at.flow, p);
      if p.msg.Rtu? {
        EstablishedBeforehand(t, p);
      } else if p.msg.Rej? {
        RejectedBeforehand(t, p);
      }
      ApplyIndexed(at.tracker, at.flow, p, Decide(p, at.tracker.flows[at.flow]));
    }
  }

  // ---- Whole runs ----

  /** Every packet of the run, when its turn comes, keeps the entries. */
  ghost predicate RunKeepsEntries(t: Tracker, ps: seq<Packet>)
    requires t.Closed() && Run(t, ps).Ok?
  {
    if ps == [] then true
    else
      var front := ps[..|ps| - 1];
      RunKeepsEntries(t, front) && KeepsEntries(Run(t, front).value, ps[|ps| - 1])
  }

  /** Every state the run goes through has its established flows in the table. */
  ghost predicate AlwaysIndexed(t: Tracker, ps: seq<Packet>)
    requires t.Closed() && Run(t, ps).Ok?
  {
    && EstablishedIndexed(Run(t, ps).value)
    && (ps != [] ==> AlwaysIndexed(t, ps[..|ps| - 1]))
  }

  lemma {:induction false} RunKeepsIndexed(t: Tracker, ps: seq<Packet>)
    requires Inv(t) && EstablishedIndexed(t) && Run(t, ps).Ok?
    ensures AlwaysIndexed(t, ps) <==> RunKeepsEntries(t, ps)
  {
    if ps != [] {
      var front := ps[..|ps| - 1];
      RunKeepsIndexed(t, front);
      if AlwaysIndexed(t, front) {
        RunKeepsInv(t, front);
        StepKeepsIndexed(Run(t, front).value, ps[|ps| - 1]);
      }
    }
  }
}
