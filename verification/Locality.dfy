/** What a packet leaves alone, and what it does to the query table. */
module Locality {
  import opened CmTypes
  import opened TrackerModel
  import opened TrackerInvariant

  /** The packet names one of the ids the flow has recorded. */
  predicate Names(p: Packet, f: Flow) {
    || (f.localId != 0 && p.NamesLocal(f.localId))
    || (f.remoteId.Valid() && p.NamesPeer(f.remoteId))
  }

  /** The two maps agree on key `x`: absent from both, or the same value in both. */
  predicate SameAt<K, V(==)>(m: map<K, V>, n: map<K, V>, x: K) {
    if x in m then x in n && n[x] == m[x] else x !in n
  }

  /** The flow the packet's handler works on. */
  function Target(t: Tracker, p: Packet): (i: nat)
    requires t.Closed() && !p.msg.Other? && GetFlow(t, p.LocalId(), p.LookupKey()).Ok?
  {
    GetFlow(t, p.LocalId(), p.LookupKey()).value.flow
  }

  /** An existing flow is worked on only by packets that name it. */
  lemma TargetIsNamed(t: Tracker, p: Packet)
    requires Inv(t) && !p.msg.Other? && GetFlow(t, p.LocalId(), p.LookupKey()).Ok?
    ensures Target(t, p) < |t.flows| ==> Names(p, t.flows[Target(t, p)])
  { }

  /** No other flow changes, and no other id's entry changes. */
  ghost predicate OnlyTouches(t: Tracker, u: Tracker, i: nat, l: u32, k: RemoteKey) {
    && |t.flows| <= |u.flows|
    && (forall j :: 0 <= j < |t.flows| && j != i ==> u.flows[j] == t.flows[j])
    && (forall m :: m != l ==> SameAt(t.localMap, u.localMap, m))
    && (forall m :: m != k ==> SameAt(t.remoteMap, u.remoteMap, m))
  }

  lemma TouchesTransitive(t: Tracker, u: Tracker, v: Tracker, i: nat, l: u32, k: RemoteKey)
    requires OnlyTouches(t, u, i, l, k) && OnlyTouches(u, v, i, l, k)
    ensures OnlyTouches(t, v, i, l, k)
  {
    forall m | m != l
      ensures SameAt(t.localMap, v.localMap, m)
    {
      assert SameAt(t.localMap, u.localMap, m) && SameAt(u.localMap, v.localMap, m);
    }
    forall m | m != k
      ensures SameAt(t.remoteMap, v.remoteMap, m)
    {
      assert SameAt(t.remoteMap, u.remoteMap, m) && SameAt(u.remoteMap, v.remoteMap, m);
    }
  }

  lemma BindTouches(t: Tracker, i: nat, l: u32, k: RemoteKey)
    requires t.Closed() && i < |t.flows| && Bind(t, i, l, k).Ok?
    ensures OnlyTouches(t, Bind(t, i, l, k).value.tracker, i, l, k)
    ensures Bind(t, i, l, k).value.tracker.qpnMap == t.qpnMap && Bind(t, i, l, k).value.flow == i
  { }

  lemma AddNewFlowTouches(t: Tracker, l: u32, k: RemoteKey)
    requires t.Closed() && AddNewFlow(t, l, k).Ok?
    ensures OnlyTouches(t, AddNewFlow(t, l, k).value.tracker, AddNewFlow(t, l, k).value.flow, l, k)
    ensures AddNewFlow(t, l, k).value.tracker.qpnMap == t.qpnMap
  {
    if l in t.localMap && k in t.remoteMap {
    } else if l !in t.localMap && k !in t.remoteMap {
      var u, i := t.(flows := t.flows + [NEW_FLOW]), |t.flows|;
      BindTouches(u, i, l, k);
      TouchesTransitive(t, u, Bind(u, i, l, k).value.tracker, i, l, k);
    } else {
      BindTouches(t, if l in t.localMap then t.localMap[l] else t.remoteMap[k], l, k);
    }
  }

  lemma GetFlowTouches(t: Tracker, p: Packet)
    requires IdsExact(t) && !p.msg.Other? && GetFlow(t, p.LocalId(), p.LookupKey()).Ok?
    ensures OnlyTouches(t, GetFlow(t, p.LocalId(), p.LookupKey()).value.tracker, Target(t, p), p.LocalId(), p.PeerKey())
    ensures GetFlow(t, p.LocalId(), p.LookupKey()).value.tracker.qpnMap == t.qpnMap
  {
    var l, look := p.LocalId(), p.LookupKey();
    if GetFlow(t, l, look).value.tracker != t {
      AddNewFlowTouches(t, l, look);
      if look != p.PeerKey() {
        assert GetFlow(t, l, look).value.tracker.remoteMap == t.remoteMap;
      }
    }
  }

  lemma EraseFlowTouches(t: Tracker, i: nat, l: u32, k: RemoteKey)
    requires t.Closed() && ErasedIndex(t, l, k) == Some(i) && EraseFlow(t, l, k).Ok?
    ensures OnlyTouches(t, EraseFlow(t, l, k).value, i, l, k)
  { }

  lemma ApplyTouches(t: Tracker, i: nat, p: Packet, a: Action)
    requires t.Closed() && i < |t.flows| && FoundUnder(t, i, p.LocalId(), p.PeerKey())
    requires Apply(t, i, p, a).Ok?
    ensures OnlyTouches(t, Apply(t, i, p, a).value, i, p.LocalId(), p.PeerKey())
  {
    match a
    case Ignore =>
    case Update(f) =>
    case UpdateAndLink(f) =>
      AddNewFlowTouches(t.With(i, f), p.LocalId(), p.PeerKey());
      TouchesTransitive(t, t.With(i, f), Apply(t, i, p, a).value, i, p.LocalId(), p.PeerKey());
    case Establish =>
    case Erase =>
      EraseFlowTouches(t, i, p.LocalId(), p.PeerKey());
  }

  lemma StepTouches(t: Tracker, p: Packet)
    requires Inv(t) && Step(t, p).Ok? && !p.msg.Other?
    ensures OnlyTouches(t, Step(t, p).value, Target(t, p), p.LocalId(), p.PeerKey())
  {
    var at := GetFlow(t, p.LocalId(), p.LookupKey()).value;
    LookupKeepsInv(t, p);
    GetFlowTouches(t, p);
    ApplyTouches(at.tracker, at.flow, p, Decide(p, at.tracker.flows[at.flow]));
    TouchesTransitive(t, at.tracker, Step(t, p).value, at.flow, p.LocalId(), p.PeerKey());
  }

  /** Non-interference: a packet that names neither id of a flow leaves its
      fields, its entries in both id maps and its query table entry as they were. */
  lemma UnnamedFlowIsUntouched(t: Tracker, p: Packet, i: nat)
    requires Inv(t) && Step(t, p).Ok? && i < |t.flows| && !Names(p, t.flows[i])
    ensures
      var u, f := Step(t, p).value, t.flows[i];
      && i < |u.flows| && u.flows[i] == f
      && (f.localId != 0 ==> SameAt(t.localMap, u.localMap, f.localId))
      && (f.remoteId.Valid() ==> SameAt(t.remoteMap, u.remoteMap, f.remoteId))
      && (f.inQpnMap ==> f.Key() in u.qpnMap && u.qpnMap[f.Key()] == t.qpnMap[f.Key()] == f.localQpn)
  {
    StepKeepsInv(t, p);
    if !p.msg.Other? {
      StepTouches(t, p);
      TargetIsNamed(t, p);
    }
    assert Indexed(t, i) == t.flows[i].inQpnMap == Indexed(Step(t, p).value, i);
  }

  /** And so through a whole run that never names it. */
  lemma {:induction false} UnnamedThroughRun(t: Tracker, ps: seq<Packet>, i: nat)
    requires Inv(t) && Run(t, ps).Ok? && i < |t.flows|
    requires forall j :: 0 <= j < |ps| ==> !Names(ps[j], t.flows[i])
    ensures
      var u, f := Run(t, ps).value, t.flows[i];
      && i < |u.flows| && u.flows[i] == f
      && (f.localId != 0 ==> SameAt(t.localMap, u.localMap, f.localId))
      && (f.remoteId.Valid() ==> SameAt(t.remoteMap, u.remoteMap, f.remoteId))
      && (f.inQpnMap ==> GetSourceQpn(u, f.Key()) == GetSourceQpn(t, f.Key()) == f.localQpn)
  {
    if ps == [] {
      assert t.flows[i].inQpnMap == Indexed(t, i);
    } else {
      var front := ps[..|ps| - 1];
      UnnamedThroughRun(t, front, i);
      RunKeepsInv(t, front);
      UnnamedFlowIsUntouched(Run(t, front).value, ps[|ps| - 1], i);
    }
  }

  /** A flow keeps its query table entry through every packet that works on some
      other flow, even one that has the same key and lost the race for it. */
  lemma EntrySurvivesOtherFlows(t: Tracker, p: Packet, j: nat)
    requires Inv(t) && Step(t, p).Ok? && !p.msg.Other?
    requires Indexed(t, j) && Target(t, p) != j
    ensures GetSourceQpn(Step(t, p).value, t.flows[j].Key()) == t.flows[j].localQpn != 0
  {
    StepKeepsInv(t, p);
    StepTouches(t, p);
    assert Indexed(Step(t, p).value, j) && FlowExact(t.flows[j]);
  }

  // ---- Conservation of query table entries ----

  /** One packet's effect on the query table. */
  datatype Effect = Unchanged | Inserted(key: FlowKey, qpn: u32) | Deleted(key: FlowKey)

  function EffectOf(t: Tracker, u: Tracker, key: FlowKey): Effect {
    if key in u.qpnMap && key !in t.qpnMap then Inserted(key, u.qpnMap[key])
    else if key in t.qpnMap && key !in u.qpnMap then Deleted(key)
    else Unchanged
  }

  /** The key under which the packet's flow ends up, or already was. */
  function TargetKey(t: Tracker, p: Packet): FlowKey
    requires t.Closed() && !p.msg.Other? && GetFlow(t, p.LocalId(), p.LookupKey()).Ok?
  {
    var at := GetFlow(t, p.LocalId(), p.LookupKey()).value;
    at.tracker.flows[at.flow].Key()
  }

  /** `u`'s table differs from `t`'s at most at `key`, and only as `p` may. */
  predicate Conserves(t: Tracker, p: Packet, u: Tracker, key: FlowKey) {
    match EffectOf(t, u, key)
    case Unchanged => u.qpnMap == t.qpnMap
    case Inserted(_, q) => p.msg.Rtu? && u.qpnMap == t.qpnMap[key := q]
    case Deleted(_) => (p.msg.Rej? || p.msg.Drep?) && u.qpnMap == t.qpnMap - {key}
  }

  lemma ApplyEffect(t: Tracker, i: nat, p: Packet, a: Action)
    requires t.Closed() && i < |t.flows| && FoundUnder(t, i, p.LocalId(), p.PeerKey())
    requires Sound(p, t.flows[i], a) && Apply(t, i, p, a).Ok?
    ensures Conserves(t, p, Apply(t, i, p, a).value, t.flows[i].Key())
  { }

  /** Each packet changes at most one key, that of the flow it works on; only an
      RTU inserts and only a REJ or a DREP removes. */
  lemma StepEffect(t: Tracker, p: Packet)
    requires Inv(t) && Step(t, p).Ok?
    ensures if p.msg.Other? then Step(t, p).value == t else Conserves(t, p, Step(t, p).value, TargetKey(t, p))
  {
    if !p.msg.Other? {
      var at := GetFlow(t, p.LocalId(), p.LookupKey()).value;
      LookupKeepsInv(t, p);
      GetFlowTouches(t, p);
      FoundDecision(at.tracker, at.flow, p);
      ApplyEffect(at.tracker, at.flow, p, Decide(p, at.tracker.flows[at.flow]));
    }
  }

  /** Insertions and removals along a run. */
  ghost function Inserts(t: Tracker, ps: seq<Packet>): nat
    requires t.Closed() && Run(t, ps).Ok?
  {
    if ps == [] then 0
    else
      var u := Run(t, ps[..|ps| - 1]).value;
      Inserts(t, ps[..|ps| - 1]) + if Run(t, ps).value.qpnMap.Keys <= u.qpnMap.Keys then 0 else 1
  }

  ghost function Removals(t: Tracker, ps: seq<Packet>): nat
    requires t.Closed() && Run(t, ps).Ok?
  {
    if ps == [] then 0
    else
      var u := Run(t, ps[..|ps| - 1]).value;
      Removals(t, ps[..|ps| - 1]) + if u.qpnMap.Keys <= Run(t, ps).value.qpnMap.Keys then 0 else 1
  }

  lemma EffectCounts(t: Tracker, p: Packet, u: Tracker, key: FlowKey)
    requires Conserves(t, p, u, key)
    ensures
      var m, n := t.qpnMap, u.qpnMap;
      |n| == |m| + (if n.Keys <= m.Keys then 0 else 1) - (if m.Keys <= n.Keys then 0 else 1)
  { }

  /** The table's size is what was inserted less what was removed. */
  lemma {:induction false} TableIsConserved(t: Tracker, ps: seq<Packet>)
    requires Inv(t) && Run(t, ps).Ok?
    ensures |Run(t, ps).value.qpnMap| == |t.qpnMap| + Inserts(t, ps) - Removals(t, ps)
  {
    if ps != [] {
      var front := ps[..|ps| - 1];
      TableIsConserved(t, front);
      RunKeepsInv(t, front);
      var u, p := Run(t, front).value, ps[|ps| - 1];
      StepEffect(u, p);
      if !p.msg.Other? {
        EffectCounts(u, p, Run(t, ps).value, TargetKey(u, p));
      }
    }
  }
}
