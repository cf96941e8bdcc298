/** How one flow may change over a run. */
module Lifecycle {
  import opened CmTypes
  import opened TrackerModel
  import opened TrackerInvariant

  /** IDLE < REQ < REP < ESTABLISHED < DREQ. */
  function Rank(phase: FlowPhase): nat {
    match phase
    case Idle => 0
    case ReqSent | ReqRcvd | MraReqRcvd | MraReqSent => 1
    case RepSent | RepRcvd | MraRepSent | MraRepRcvd => 2
    case Established => 3
    case DreqSent | DreqRcvd => 4
    case Timewait => 5
  }

  /** Phases never go back, ids are write-once, QPNs are frozen from the REP
      phase on, and a flow that left the query table never returns to it. */
  predicate FlowEvolves(f: Flow, g: Flow) {
    && Rank(f.phase) <= Rank(g.phase)
    && (f.localId != 0 ==> g.localId == f.localId)
    && (f.remoteId.Valid() ==> g.remoteId == f.remoteId)
    && (Rank(f.phase) >= 2 ==> g.localQpn == f.localQpn && g.remoteQpn == f.remoteQpn)
    && (Rank(f.phase) >= 3 && g.inQpnMap ==> f.inQpnMap)
  }

  ghost predicate Evolves(t: Tracker, u: Tracker) {
    && |t.flows| <= |u.flows|
    && forall i :: 0 <= i < |t.flows| ==> FlowEvolves(t.flows[i], u.flows[i])
  }

  lemma AddNewFlowEvolves(t: Tracker, l: u32, k: RemoteKey)
    requires t.Closed() && AddNewFlow(t, l, k).Ok?
    ensures Evolves(t, AddNewFlow(t, l, k).value.tracker)
  { }

  lemma GetFlowEvolves(t: Tracker, l: u32, k: RemoteKey)
    requires t.Closed() && GetFlow(t, l, k).Ok?
    ensures Evolves(t, GetFlow(t, l, k).value.tracker)
  { }

  lemma EvolvesTransitive(t: Tracker, u: Tracker, v: Tracker)
    requires Evolves(t, u) && Evolves(u, v)
    ensures Evolves(t, v)
  { }

  /** A handler's assignments to a flow's phase and QPNs. */
  lemma DecideEvolves(p: Packet, f: Flow)
    requires FlowExact(f)
    ensures var a := Decide(p, f); (a.Update? || a.UpdateAndLink?) ==> FlowEvolves(f, a.flow)
    ensures Decide(p, f).Establish? ==> Rank(f.phase) == 2
  { }

  lemma EraseFlowEvolves(t: Tracker, l: u32, k: RemoteKey)
    requires t.Closed() && EraseFlow(t, l, k).Ok?
    ensures Evolves(t, EraseFlow(t, l, k).value)
  { }

  lemma ApplyEvolves(t: Tracker, i: nat, p: Packet, a: Action)
    requires t.Closed() && i < |t.flows| && Apply(t, i, p, a).Ok?
    requires a.Update? || a.UpdateAndLink? ==> FlowEvolves(t.flows[i], a.flow)
    requires a.Establish? ==> Rank(t.flows[i].phase) == 2
    ensures Evolves(t, Apply(t, i, p, a).value)
  {
    match a
    case Ignore =>
    case Update(f) =>
    case UpdateAndLink(f) =>
      AddNewFlowEvolves(t.With(i, f), p.LocalId(), p.PeerKey());
      EvolvesTransitive(t, t.With(i, f), Apply(t, i, p, a).value);
    case Establish =>
    case Erase =>
      EraseFlowEvolves(t, p.LocalId(), p.PeerKey());
  }

  lemma StepEvolves(t: Tracker, p: Packet)
    requires Inv(t) && Step(t, p).Ok?
    ensures Evolves(t, Step(t, p).value)
  {
    if !p.msg.Other? {
      var at := GetFlow(t, p.LocalId(), p.LookupKey()).value;
      LookupKeepsInv(t, p);
      GetFlowEvolves(t, p.LocalId(), p.LookupKey());
      assert FlowExact(at.tracker.flows[at.flow]);
      DecideEvolves(p, at.tracker.flows[at.flow]);
      ApplyEvolves(at.tracker, at.flow, p, Decide(p, at.tracker.flows[at.flow]));
      EvolvesTransitive(t, at.tracker, Step(t, p).value);
    }
  }

  /** Over whole runs, from any state with the invariant. */
  lemma {:induction false} RunEvolves(t: Tracker, ps: seq<Packet>)
    requires Inv(t) && Run(t, ps).Ok?
    ensures Evolves(t, Run(t, ps).value)
  {
    if ps != [] {
      var front := ps[..|ps| - 1];
      RunEvolves(t, front);
      RunKeepsInv(t, front);
      var u := Run(t, front).value;
      StepEvolves(u, ps[|ps| - 1]);
      EvolvesTransitive(t, u, Run(t, ps).value);
    }
  }

  /** No reachable flow is in an MRA or TIMEWAIT phase, a marked flow is in one
      of the last three with both QPNs nonzero, and no two keys of one map lead
      to the same flow. */
  lemma ReachableFlows(t: Tracker)
    requires Reachable(t)
    ensures forall i :: 0 <= i < |t.flows| ==>
      && t.flows[i].phase !in {MraReqRcvd, MraReqSent, MraRepSent, MraRepRcvd, Timewait}
      && (t.flows[i].inQpnMap ==>
            t.flows[i].phase in {Established, DreqSent, DreqRcvd} &&
            t.flows[i].localQpn != 0 && t.flows[i].remoteQpn != 0)
    ensures 0 !in t.localMap && forall k :: k in t.remoteMap ==> k.Valid()
    ensures forall l, m :: l in t.localMap && m in t.localMap && t.localMap[l] == t.localMap[m] ==> l == m
    ensures forall k, m :: k in t.remoteMap && m in t.remoteMap && t.remoteMap[k] == t.remoteMap[m] ==> k == m
  {
    ReachableHasInv(t);
    assert forall i :: 0 <= i < |t.flows| ==> FlowExact(t.flows[i]);
  }
}
