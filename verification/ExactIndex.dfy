/** The query table answers exactly as a scan over all flows would. */
module ExactIndex {
  import opened CmTypes
  import opened TrackerModel
  import opened TrackerInvariant

  /** The slow query: the first flow that is marked and has this key. */
  function ScanFlows(flows: seq<Flow>, key: FlowKey): u32 {
    if flows == [] then 0
    else if flows[0].inQpnMap && flows[0].Key() == key then flows[0].localQpn
    else ScanFlows(flows[1..], key)
  }

  lemma {:induction false} ScanFindsOwner(flows: seq<Flow>, key: FlowKey, i: nat)
    requires i < |flows| && flows[i].inQpnMap && flows[i].Key() == key
    requires forall j :: 0 <= j < |flows| && flows[j].inQpnMap && flows[j].Key() == key ==> j == i
    ensures ScanFlows(flows, key) == flows[i].localQpn
  {
    if i > 0 {
      ScanFindsOwner(flows[1..], key, i - 1);
    }
  }

  lemma {:induction false} ScanWithoutOwner(flows: seq<Flow>, key: FlowKey)
    requires forall j :: 0 <= j < |flows| && flows[j].inQpnMap ==> flows[j].Key() != key
    ensures ScanFlows(flows, key) == 0
  {
    if flows != [] {
      ScanWithoutOwner(flows[1..], key);
    }
  }

  lemma {:induction false} QueryIsScan(t: Tracker, key: FlowKey)
    requires Inv(t)
    ensures GetSourceQpn(t, key) == ScanFlows(t.flows, key)
  {
    if i :| Owns(t, i, key) {
      assert forall j :: 0 <= j < |t.flows| && t.flows[j].inQpnMap ==> Indexed(t, j);
      ScanFindsOwner(t.flows, key, i);
    } else {
      forall j | 0 <= j < |t.flows| && t.flows[j].inQpnMap
        ensures t.flows[j].Key() != key
      {
        assert !Owns(t, j, key);
      }
      ScanWithoutOwner(t.flows, key);
    }
  }

  /** A nonzero answer has exactly one owner, entered under its own local id,
      whose QPN it is; the answer 0 means that no flow owns the key. */
  lemma QueryNamesItsOwner(t: Tracker, key: FlowKey)
    requires Inv(t)
    ensures GetSourceQpn(t, key) != 0 <==> exists i :: Owns(t, i, key)
    ensures forall i, j :: Owns(t, i, key) && Owns(t, j, key) ==> i == j
    ensures forall i :: Owns(t, i, key) ==>
      && t.flows[i].localId in t.localMap && t.localMap[t.flows[i].localId] == i
      && GetSourceQpn(t, key) == t.flows[i].localQpn
  { }

  // ---- As many entries as marked flows ----

  function CountIndexed(flows: seq<Flow>): nat {
    if flows == [] then 0
    else CountIndexed(flows[..|flows| - 1]) + if flows[|flows| - 1].inQpnMap then 1 else 0
  }

  ghost function IndexedKeys(flows: seq<Flow>): set<FlowKey> {
    set i | 0 <= i < |flows| && flows[i].inQpnMap :: flows[i].Key()
  }

  lemma {:induction false} KeysCountFlows(flows: seq<Flow>)
    requires forall i, j | 0 <= i < |flows| && 0 <= j < |flows| && flows[i].inQpnMap && flows[j].inQpnMap ::
      flows[i].Key() == flows[j].Key() ==> i == j
    ensures |IndexedKeys(flows)| == CountIndexed(flows)
  {
    if flows != [] {
      var n := |flows| - 1;
      var front := flows[..n];
      KeysCountFlows(front);
      if flows[n].inQpnMap {
        assert flows[n].Key() !in IndexedKeys(front);
        assert IndexedKeys(flows) == IndexedKeys(front) + {flows[n].Key()};
      } else {
        assert IndexedKeys(flows) == IndexedKeys(front);
      }
    }
  }

  lemma TableKeys(t: Tracker)
    requires QpnMapExact(t)
    ensures t.qpnMap.Keys == IndexedKeys(t.flows)
  { }

  /** The table's keys are exactly the keys of the marked flows, one each. */
  lemma TableCountsFlows(t: Tracker)
    requires QpnMapExact(t)
    ensures t.qpnMap.Keys == IndexedKeys(t.flows)
    ensures |t.qpnMap| == CountIndexed(t.flows)
  {
    TableKeys(t);
    assert forall j :: 0 <= j < |t.flows| && t.flows[j].inQpnMap ==> Indexed(t, j);
    KeysCountFlows(t.flows);
    assert |t.qpnMap| == |t.qpnMap.Keys|;
  }

  /** All of it holds in every state any run can reach. */
  lemma {:induction false} ReachableTableIsExact(t: Tracker, key: FlowKey)
    requires Reachable(t)
    ensures GetSourceQpn(t, key) == ScanFlows(t.flows, key)
    ensures GetSourceQpn(t, key) != 0 <==> exists i :: Owns(t, i, key)
    ensures |t.qpnMap| == CountIndexed(t.flows)
  {
    ReachableHasInv(t);
    QueryIsScan(t, key);
    QueryNamesItsOwner(t, key);
    TableCountsFlows(t);
  }

  /** The flow an RTU establishes: found under the local id it names, in the REP
      phase of the other direction. */
  predicate Establishes(t: Tracker, p: Packet)
    requires t.Closed()
  {
    && p.msg.Rtu? && p.LocalId() in t.localMap
    && t.flows[t.localMap[p.LocalId()]].phase == if p.dir.FromHost? then RepRcvd else RepSent
  }

  /** An established flow gets its entry exactly when both QPNs are nonzero and the
      key is free; otherwise it stays established without one. */
  lemma EntryExactlyWhen(t: Tracker, p: Packet)
    requires Inv(t) && Establishes(t, p)
    ensures
      var i := t.localMap[p.LocalId()];
      var f := t.flows[i];
      && Step(t, p).Ok? && i < |Step(t, p).value.flows| && Step(t, p).value.flows[i].phase == Established
      && (Step(t, p).value.flows[i].inQpnMap <==> f.localQpn != 0 && f.remoteQpn != 0 && f.Key() !in t.qpnMap)
  {
    var i := t.localMap[p.LocalId()];
    assert FlowExact(t.flows[i]) && p.LocalId() != 0;
  }
}
