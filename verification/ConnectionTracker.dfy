/** The tracker as the source has it: flow objects shared between two maps and
    updated in place. Every method is proved against the model on values. */
module ConnectionTracker {
  import opened CmTypes
  import opened TrackerModel
  import opened TrackerInvariant
  import ExactIndex

  class FlowState {
    /** The object's place in the order of creation, its identity in the model. */
    ghost const handle: nat

    var phase: FlowPhase
    var localId: u32
    var remoteId: RemoteKey
    var localQpn: u32
    var remoteQpn: u32
    var inQpnMap: bool

    ghost function Value(): Flow
      reads this
    {
      Flow(phase, localId, remoteId, localQpn, remoteQpn, inQpnMap)
    }

    function Key(): (key: FlowKey)
      reads this
      ensures key == Value().Key()
    {
      FlowKey(remoteId.addr, remoteQpn)
    }

    constructor (ghost handle: nat)
      ensures this.handle == handle && Value() == NEW_FLOW
    {
      this.handle := handle;
      phase, localId, remoteId, localQpn, remoteQpn, inQpnMap := Idle, 0, NO_KEY, 0, 0, false;
    }
  }

  /** A method's outcome together with the state it left. */
  function Result(r: Outcome<()>, now: Tracker): Outcome<Tracker> {
    if r.Ok? then Ok(now) else Abort(r.failed)
  }

  class ConnectionTracker {
    var localMap: map<u32, FlowState>
    var remoteMap: map<RemoteKey, FlowState>
    var qpnMap: map<FlowKey, u32>

    /** Every flow object made so far, in order and as a set, and the state as a value. */
    ghost var flows: seq<FlowState>
    ghost var repr: set<FlowState>
    ghost var model: Tracker

    ghost predicate Stored(f: FlowState)
      reads this
    {
      f.handle < |flows| && flows[f.handle] == f
    }

    /** The objects and the maps are what the model says. */
    ghost predicate Coupled()
      reads this, repr
    {
      && model.Closed()
      && |model.flows| == |flows|
      && (forall i {:trigger flows[i]} :: 0 <= i < |flows| ==>
          flows[i] in repr && flows[i].handle == i && flows[i].Value() == model.flows[i])
      && localMap.Keys == model.localMap.Keys
      && (forall l {:trigger localMap[l]} :: l in localMap ==>
          Stored(localMap[l]) && localMap[l].handle == model.localMap[l])
      && remoteMap.Keys == model.remoteMap.Keys
      && (forall k {:trigger remoteMap[k]} :: k in remoteMap ==>
          Stored(remoteMap[k]) && remoteMap[k].handle == model.remoteMap[k])
      && qpnMap == model.qpnMap
    }

    /** What holds between packets as long as no assert has failed. */
    ghost predicate Valid()
      reads this, repr
    {
      Coupled() && Inv(model)
    }

    constructor ()
      ensures Valid() && model == EMPTY_TRACKER && repr == {}
    {
      localMap, remoteMap, qpnMap := map[], map[], map[];
      flows, repr, model := [], {}, EMPTY_TRACKER;
    }

    /** A lookup's outcome together with the state it left. */
    ghost function Found(r: Outcome<FlowState>): Outcome<Located>
      reads this
    {
      if r.Ok? then Ok(Located(model, r.value.handle)) else Abort(r.failed)
    }

    /** The source's get_source_qpn; the answer is that of a scan over all flows. */
    function GetSourceQpn(key: FlowKey): (q: u32)
      requires Valid()
      reads this, repr
      ensures q == ExactIndex.ScanFlows(model.flows, key)
    {
      ExactIndex.QueryIsScan(model, key);
      if key in qpnMap then qpnMap[key] else 0
    }

    method AddNewFlow(l: u32, k: RemoteKey) returns (r: Outcome<FlowState>)
      requires Coupled()
      modifies this, repr
      ensures Coupled() && fresh(repr - old(repr))
      ensures Found(r) == TrackerModel.AddNewFlow(old(model), l, k)
      ensures r.Ok? ==> Stored(r.value)
    {
      var inLocal, inRemote := l in localMap, k in remoteMap;
      var state: FlowState? := null;
      if inLocal && inRemote {
        if localMap[l] != remoteMap[k] {
          return Abort(MapsDisagree);
        }
        state := localMap[l];
        if state.localId != l || state.remoteId != k {
          return Abort(EntryMismatch);
        }
        return Ok(state);
      } else if !inLocal && !inRemote {
        if l == 0 && !k.Valid() {
          return Abort(NewFlowWithoutId);
        }
        state := MakeFlow();
      } else if inLocal {
        state := localMap[l];
      } else if inRemote {
        state := remoteMap[k];
      }
      if state == null {
        return Abort(NoFlow);
      }
      assert state in repr;
      var _ :- BindLocalId(state, l);
      var _ :- BindRemoteId(state, k);
      return Ok(state);
    }

    /** Allocates a flow that is in neither map yet. */
    method MakeFlow() returns (f: FlowState)
      requires Coupled()
      modifies this`flows, this`repr, this`model
      ensures Coupled() && fresh(repr - old(repr)) && fresh(f) && Stored(f) && f.handle == |old(flows)|
      ensures model == old(model).(flows := old(model).flows + [NEW_FLOW])
    {
      f := new FlowState(|flows|);
      flows, repr, model := flows + [f], repr + {f}, model.(flows := model.flows + [NEW_FLOW]);
      assert forall g: FlowState :: old(allocated(g)) && old(Stored(g)) ==> Stored(g);
    }

    method BindLocalId(f: FlowState, l: u32) returns (r: Outcome<()>)
      requires Coupled() && Stored(f)
      modifies this`localMap, this`model, f
      ensures Coupled() && Result(r, model) == BindLocal(old(model), f.handle, l)
    {
      if l !in localMap && l != 0 {
        if f.localId != 0 {
          return Abort(LocalIdTaken);
        }
        f.localId := l;
        localMap := localMap[l := f];
        model := BindLocal(model, f.handle, l).value;
      }
      return Ok(());
    }

    method BindRemoteId(f: FlowState, k: RemoteKey) returns (r: Outcome<()>)
      requires Coupled() && Stored(f)
      modifies this`remoteMap, this`model, f
      ensures Coupled() && Result(r, model) == BindRemote(old(model), f.handle, k)
    {
      if k !in remoteMap && k.Valid() {
        if f.remoteId.Valid() {
          return Abort(RemoteIdTaken);
        }
        f.remoteId := k;
        remoteMap := remoteMap[k := f];
        model := BindRemote(model, f.handle, k).value;
      }
      return Ok(());
    }

    method GetFlow(l: u32, k: RemoteKey) returns (r: Outcome<FlowState>)
      requires Coupled()
      modifies this, repr
      ensures Coupled() && fresh(repr - old(repr))
      ensures Found(r) == TrackerModel.GetFlow(old(model), l, k)
      ensures r.Ok? ==> Stored(r.value)
    {
      if l == 0 && !k.Valid() {
        return Abort(LookupWithoutId);
      }
      if l != 0 {
        if l in localMap {
          return Ok(localMap[l]);
        }
      } else {
        if k in remoteMap {
          return Ok(remoteMap[k]);
        }
      }
      r := AddNewFlow(l, k);
    }

    method OnEstablished(f: FlowState)
      requires Coupled() && Stored(f)
      modifies this`qpnMap, this`model, f
      ensures Coupled() && model == TrackerModel.OnEstablished(old(model), f.handle)
    {
      if f.localQpn == 0 || f.remoteQpn == 0 {
        return;
      }
      if f.Key() in qpnMap {
        return;
      }
      qpnMap := qpnMap[f.Key() := f.localQpn];
      f.inQpnMap := true;
      model := TrackerModel.OnEstablished(model, f.handle);
    }

    method OnDisconnected(f: FlowState)
      requires Coupled() && Stored(f)
      modifies this`qpnMap, this`model, f
      ensures Coupled() && model == TrackerModel.OnDisconnected(old(model), f.handle)
    {
      if f.localQpn == 0 || f.remoteQpn == 0 {
        return;
      }
      if f.Key() !in qpnMap {
        return;
      }
      qpnMap := qpnMap - {f.Key()};
      f.inQpnMap := false;
      model := TrackerModel.OnDisconnected(model, f.handle);
    }

    method EraseFlow(l: u32, k: RemoteKey) returns (r: Outcome<()>)
      requires Coupled()
      modifies this, repr
      ensures Coupled() && repr == old(repr) && Result(r, model) == TrackerModel.EraseFlow(old(model), l, k)
    {
      if l == 0 && !k.Valid() {
        return Abort(EraseWithoutId);
      }
      var state: FlowState? := null;
      if l != 0 {
        if l in localMap {
          state := localMap[l];
        }
      } else if k in remoteMap {
        state := remoteMap[k];
      }
      if state != null {
        assert state in repr;
        EraseFound(state, l, k);
      }
      return Ok(());
    }

    method EraseFound(f: FlowState, l: u32, k: RemoteKey)
      requires Coupled() && Stored(f) && (l != 0 || k.Valid()) && ErasedIndex(model, l, k) == Some(f.handle)
      modifies this`localMap, this`remoteMap, this`qpnMap, this`model, f
      ensures Coupled() && Ok(model) == TrackerModel.EraseFlow(old(model), l, k)
    {
      if f.inQpnMap {
        OnDisconnected(f);
      }
      Unbind(l, k);
    }

    /** The two `erase` calls, in either order. */
    method Unbind(l: u32, k: RemoteKey)
      requires Coupled()
      modifies this`localMap, this`remoteMap, this`model
      ensures Coupled()
      ensures model == old(model).(localMap := old(model).localMap - {l}, remoteMap := old(model).remoteMap - {k})
    {
      localMap := localMap - {l};
      remoteMap := remoteMap - {k};
      model := model.(localMap := model.localMap - {l}, remoteMap := model.remoteMap - {k});
    }

    // ---- The twelve handlers ----
    //
    // Each looks its flow up and then switches on the flow's phase; the second
    // half is a method of its own, named with the suffix `On`.

    /** A handler's assignments to its flow. */
    method Assign(f: FlowState, phase: FlowPhase, localQpn: u32, remoteQpn: u32)
      requires Coupled() && Stored(f)
      modifies this`model, f
      ensures Coupled()
      ensures
        var v := old(model).flows[f.handle];
        model == old(model).With(f.handle, v.(phase := phase, localQpn := localQpn, remoteQpn := remoteQpn))
    {
      f.phase, f.localQpn, f.remoteQpn := phase, localQpn, remoteQpn;
      model := model.With(f.handle, f.Value());
    }

    /** The two halves make one step of the model. */
    lemma Composes(t: Tracker, p: Packet, at: Located, r: Outcome<()>, now: Tracker)
      requires t.Closed() && at.Closed() && !p.msg.Other?
      requires TrackerModel.GetFlow(t, p.LocalId(), p.LookupKey()) == Ok(at)
      requires Result(r, now) == Apply(at.tracker, at.flow, p, Decide(p, at.tracker.flows[at.flow]))
      ensures Result(r, now) == Step(t, p)
    { }

    method ReqSent(p: Packet) returns (r: Outcome<()>)
      requires Coupled() && p.dir.FromHost? && p.msg.Req?
      modifies this, repr
      ensures Coupled() && fresh(repr - old(repr)) && Result(r, model) == Step(old(model), p)
    {
      assert p.LocalId() == p.msg.localCommId && p.LookupKey() == NO_KEY;
      var f :- GetFlow(p.msg.localCommId, NO_KEY);
      ghost var at := Located(model, f.handle);
      r := ReqSentOn(f, p);
      Composes(old(model), p, at, r, model);
    }

    method ReqSentOn(f: FlowState, p: Packet) returns (r: Outcome<()>)
      requires Coupled() && Stored(f) && p.dir.FromHost? && p.msg.Req?
      modifies this`model, f
      ensures Coupled()
      ensures Result(r, model) == Apply(old(model), f.handle, p, Decide(p, old(model).flows[f.handle]))
    {
      match f.phase {
        case Idle | ReqSent =>
          Assign(f, CmTypes.ReqSent, p.msg.localQpn, f.remoteQpn);
        case _ =>
      }
      return Ok(());
    }

    method ReqReceived(p: Packet) returns (r: Outcome<()>)
      requires Coupled() && p.dir.FromNet? && p.msg.Req?
      modifies this, repr
      ensures Coupled() && fresh(repr - old(repr)) && Result(r, model) == Step(old(model), p)
    {
      var k := RemoteKey(p.saddr, p.msg.localCommId);
      assert p.LocalId() == 0 && p.LookupKey() == k;
      var f :- GetFlow(0, k);
      ghost var at := Located(model, f.handle);
      r := ReqReceivedOn(f, p);
      Composes(old(model), p, at, r, model);
    }

    method ReqReceivedOn(f: FlowState, p: Packet) returns (r: Outcome<()>)
      requires Coupled() && Stored(f) && p.dir.FromNet? && p.msg.Req?
      modifies this`model, f
      ensures Coupled()
      ensures Result(r, model) == Apply(old(model), f.handle, p, Decide(p, old(model).flows[f.handle]))
    {
      if f.phase == ReqRcvd && f.remoteQpn != p.msg.localQpn {
        return Abort(ReqQpnChanged);
      }
      match f.phase {
        case ReqRcvd | Idle =>
          Assign(f, ReqRcvd, f.localQpn, p.msg.localQpn);
        case _ =>
      }
      return Ok(());
    }

    method RejSent(p: Packet) returns (r: Outcome<()>)
      requires Coupled() && p.dir.FromHost? && p.msg.Rej?
      modifies this, repr
      ensures Coupled() && fresh(repr - old(repr)) && Result(r, model) == Step(old(model), p)
    {
      var k := RemoteKey(p.daddr, p.msg.remoteCommId);
      assert p.LocalId() == p.msg.localCommId && p.LookupKey() == k;
      var f :- GetFlow(p.msg.localCommId, k);
      ghost var at := Located(model, f.handle);
      r := RejSentOn(f, p);
      Composes(old(model), p, at, r, model);
    }

    method RejSentOn(f: FlowState, p: Packet) returns (r: Outcome<()>)
      requires Coupled() && Stored(f) && p.dir.FromHost? && p.msg.Rej?
      modifies this, repr
      ensures Coupled() && repr == old(repr)
      ensures Result(r, model) == Apply(old(model), f.handle, p, Decide(p, old(model).flows[f.handle]))
    {
      match f.phase {
        case Idle | ReqRcvd | ReqSent | MraReqRcvd | MraReqSent | RepRcvd | MraRepSent | RepSent | MraRepRcvd =>
          r := EraseFlow(p.msg.localCommId, RemoteKey(p.daddr, p.msg.remoteCommId));
          return;
        case _ =>
      }
      return Ok(());
    }

    method RejReceived(p: Packet) returns (r: Outcome<()>)
      requires Coupled() && p.dir.FromNet? && p.msg.Rej?
      modifies this, repr
      ensures Coupled() && fresh(repr - old(repr)) && Result(r, model) == Step(old(model), p)
    {
      var k := RemoteKey(p.saddr, p.msg.localCommId);
      assert p.LocalId() == p.msg.remoteCommId && p.LookupKey() == k;
      var f :- GetFlow(p.msg.remoteCommId, k);
      ghost var at := Located(model, f.handle);
      r := RejReceivedOn(f, p);
      Composes(old(model), p, at, r, model);
    }

    method RejReceivedOn(f: FlowState, p: Packet) returns (r: Outcome<()>)
      requires Coupled() && Stored(f) && p.dir.FromNet? && p.msg.Rej?
      modifies this, repr
      ensures Coupled() && repr == old(repr)
      ensures Result(r, model) == Apply(old(model), f.handle, p, Decide(p, old(model).flows[f.handle]))
    {
      match f.phase {
        case Idle | ReqSent | MraReqRcvd | RepSent | MraRepRcvd | MraReqSent
           | DreqSent | RepRcvd | MraRepSent | Established =>
          r := EraseFlow(p.msg.remoteCommId, RemoteKey(p.saddr, p.msg.localCommId));
          return;
        case _ =>
      }
      return Ok(());
    }

    method RepSent(p: Packet) returns (r: Outcome<()>)
      requires Coupled() && p.dir.FromHost? && p.msg.Rep?
      modifies this, repr
      ensures Coupled() && fresh(repr - old(repr)) && Result(r, model) == Step(old(model), p)
    {
      var k := RemoteKey(p.daddr, p.msg.remoteCommId);
      assert p.LocalId() == p.msg.localCommId && p.LookupKey() == k;
      var f :- GetFlow(p.msg.localCommId, k);
      ghost var at := Located(model, f.handle);
      r := RepSentOn(f, p);
      Composes(old(model), p, at, r, model);
    }

    /** The source assigns the QPN after linking; a failed link ends the run, so the
        order does not show. */
    method RepSentOn(f: FlowState, p: Packet) returns (r: Outcome<()>)
      requires Coupled() && Stored(f) && p.dir.FromHost? && p.msg.Rep?
      modifies this, repr
      ensures Coupled() && fresh(repr - old(repr))
      ensures Result(r, model) == Apply(old(model), f.handle, p, Decide(p, old(model).flows[f.handle]))
    {
      match f.phase {
        case ReqRcvd | MraReqSent =>
          assert f in repr;
          Assign(f, CmTypes.RepSent, p.msg.localQpn, f.remoteQpn);
          var _ :- AddNewFlow(p.msg.localCommId, RemoteKey(p.daddr, p.msg.remoteCommId));
        case _ =>
      }
      return Ok(());
    }

    method RepReceived(p: Packet) returns (r: Outcome<()>)
      requires Coupled() && p.dir.FromNet? && p.msg.Rep?
      modifies this, repr
      ensures Coupled() && fresh(repr - old(repr)) && Result(r, model) == Step(old(model), p)
    {
      assert p.LocalId() == p.msg.remoteCommId && p.LookupKey() == NO_KEY;
      var f :- GetFlow(p.msg.remoteCommId, NO_KEY);
      ghost var at := Located(model, f.handle);
      r := RepReceivedOn(f, p);
      Composes(old(model), p, at, r, model);
    }

    method RepReceivedOn(f: FlowState, p: Packet) returns (r: Outcome<()>)
      requires Coupled() && Stored(f) && p.dir.FromNet? && p.msg.Rep?
      modifies this, repr
      ensures Coupled() && fresh(repr - old(repr))
      ensures Result(r, model) == Apply(old(model), f.handle, p, Decide(p, old(model).flows[f.handle]))
    {
      match f.phase {
        case ReqSent | MraReqRcvd =>
          assert f in repr;
          Assign(f, RepRcvd, f.localQpn, p.msg.localQpn);
          var _ :- AddNewFlow(p.msg.remoteCommId, RemoteKey(p.saddr, p.msg.localCommId));
        case _ =>
      }
      return Ok(());
    }

    method RtuSent(p: Packet) returns (r: Outcome<()>)
      requires Coupled() && p.dir.FromHost? && p.msg.Rtu?
      modifies this, repr
      ensures Coupled() && fresh(repr - old(repr)) && Result(r, model) == Step(old(model), p)
    {
      assert p.LocalId() == p.msg.localCommId && p.LookupKey() == NO_KEY;
      var f :- GetFlow(p.msg.localCommId, NO_KEY);
      ghost var at := Located(model, f.handle);
      r := RtuSentOn(f, p);
      Composes(old(model), p, at, r, model);
    }

    method RtuSentOn(f: FlowState, p: Packet) returns (r: Outcome<()>)
      requires Coupled() && Stored(f) && p.dir.FromHost? && p.msg.Rtu?
      modifies this`qpnMap, this`model, f
      ensures Coupled()
      ensures Result(r, model) == Apply(old(model), f.handle, p, Decide(p, old(model).flows[f.handle]))
    {
      match f.phase {
        case RepRcvd | MraRepSent =>
          Assign(f, Established, f.localQpn, f.remoteQpn);
          OnEstablished(f);
        case _ =>
      }
      return Ok(());
    }

    method RtuReceived(p: Packet) returns (r: Outcome<()>)
      requires Coupled() && p.dir.FromNet? && p.msg.Rtu?
      modifies this, repr
      ensures Coupled() && fresh(repr - old(repr)) && Result(r, model) == Step(old(model), p)
    {
      assert p.LocalId() == p.msg.remoteCommId && p.LookupKey() == NO_KEY;
      var f :- GetFlow(p.msg.remoteCommId, NO_KEY);
      ghost var at := Located(model, f.handle);
      r := RtuReceivedOn(f, p);
      Composes(old(model), p, at, r, model);
    }

    method RtuReceivedOn(f: FlowState, p: Packet) returns (r: Outcome<()>)
      requires Coupled() && Stored(f) && p.dir.FromNet? && p.msg.Rtu?
      modifies this`qpnMap, this`model, f
      ensures Coupled()
      ensures Result(r, model) == Apply(old(model), f.handle, p, Decide(p, old(model).flows[f.handle]))
    {
      match f.phase {
        case RepSent | MraRepRcvd =>
          Assign(f, Established, f.localQpn, f.remoteQpn);
          OnEstablished(f);
        case _ =>
      }
      return Ok(());
    }

    method DreqSent(p: Packet) returns (r: Outcome<()>)
      requires Coupled() && p.dir.FromHost? && p.msg.Dreq?
      modifies this, repr
      ensures Coupled() && fresh(repr - old(repr)) && Result(r, model) == Step(old(model), p)
    {
      assert p.LocalId() == p.msg.localCommId && p.LookupKey() == NO_KEY;
      var f :- GetFlow(p.msg.localCommId, NO_KEY);
      ghost var at := Located(model, f.handle);
      r := DreqSentOn(f, p);
      Composes(old(model), p, at, r, model);
    }

    method DreqSentOn(f: FlowState, p: Packet) returns (r: Outcome<()>)
      requires Coupled() && Stored(f) && p.dir.FromHost? && p.msg.Dreq?
      modifies this`model, f
      ensures Coupled()
      ensures Result(r, model) == Apply(old(model), f.handle, p, Decide(p, old(model).flows[f.handle]))
    {
      match f.phase {
        case Idle | Established | DreqSent | DreqRcvd =>
          Assign(f, CmTypes.DreqSent, f.localQpn, f.remoteQpn);
        case _ =>
      }
      return Ok(());
    }

    method DreqReceived(p: Packet) returns (r: Outcome<()>)
      requires Coupled() && p.dir.FromNet? && p.msg.Dreq?
      modifies this, repr
      ensures Coupled() && fresh(repr - old(repr)) && Result(r, model) == Step(old(model), p)
    {
      assert p.LocalId() == p.msg.remoteCommId && p.LookupKey() == NO_KEY;
      var f :- GetFlow(p.msg.remoteCommId, NO_KEY);
      ghost var at := Located(model, f.handle);
      r := DreqReceivedOn(f, p);
      Composes(old(model), p, at, r, model);
    }

    method DreqReceivedOn(f: FlowState, p: Packet) returns (r: Outcome<()>)
      requires Coupled() && Stored(f) && p.dir.FromNet? && p.msg.Dreq?
      modifies this`model, f
      ensures Coupled()
      ensures Result(r, model) == Apply(old(model), f.handle, p, Decide(p, old(model).flows[f.handle]))
    {
      match f.phase {
        case RepSent | DreqSent | Established | MraRepRcvd | Timewait | DreqRcvd =>
          Assign(f, DreqRcvd, f.localQpn, f.remoteQpn);
        case _ =>
      }
      return Ok(());
    }

    method DrepSent(p: Packet) returns (r: Outcome<()>)
      requires Coupled() && p.dir.FromHost? && p.msg.Drep?
      modifies this, repr
      ensures Coupled() && fresh(repr - old(repr)) && Result(r, model) == Step(old(model), p)
    {
      assert p.LocalId() == p.msg.localCommId && p.LookupKey() == NO_KEY;
      var f :- GetFlow(p.msg.localCommId, NO_KEY);
      ghost var at := Located(model, f.handle);
      r := DrepSentOn(f, p);
      Composes(old(model), p, at, r, model);
    }

    method DrepSentOn(f: FlowState, p: Packet) returns (r: Outcome<()>)
      requires Coupled() && Stored(f) && p.dir.FromHost? && p.msg.Drep?
      modifies this, repr
      ensures Coupled() && repr == old(repr)
      ensures Result(r, model) == Apply(old(model), f.handle, p, Decide(p, old(model).flows[f.handle]))
    {
      match f.phase {
        case DreqSent | DreqRcvd =>
          r := EraseFlow(p.msg.localCommId, RemoteKey(p.daddr, p.msg.remoteCommId));
          return;
        case _ =>
      }
      return Ok(());
    }

    method DrepReceived(p: Packet) returns (r: Outcome<()>)
      requires Coupled() && p.dir.FromNet? && p.msg.Drep?
      modifies this, repr
      ensures Coupled() && fresh(repr - old(repr)) && Result(r, model) == Step(old(model), p)
    {
      assert p.LocalId() == p.msg.remoteCommId && p.LookupKey() == NO_KEY;
      var f :- GetFlow(p.msg.remoteCommId, NO_KEY);
      ghost var at := Located(model, f.handle);
      r := DrepReceivedOn(f, p);
      Composes(old(model), p, at, r, model);
    }

    method DrepReceivedOn(f: FlowState, p: Packet) returns (r: Outcome<()>)
      requires Coupled() && Stored(f) && p.dir.FromNet? && p.msg.Drep?
      modifies this, repr
      ensures Coupled() && repr == old(repr)
      ensures Result(r, model) == Apply(old(model), f.handle, p, Decide(p, old(model).flows[f.handle]))
    {
      match f.phase {
        case DreqSent | DreqRcvd =>
          r := EraseFlow(p.msg.remoteCommId, RemoteKey(p.saddr, p.msg.localCommId));
          return;
        case _ =>
      }
      return Ok(());
    }

    /** The dispatch on direction and message. */
    method Process(p: Packet) returns (r: Outcome<()>)
      requires Valid()
      modifies this, repr
      ensures fresh(repr - old(repr)) && Result(r, model) == Step(old(model), p)
      ensures r.Ok? ==> Valid()
    {
      r := Dispatch(p);
      if r.Ok? {
        StepKeepsInv(old(model), p);
      }
    }

    method Dispatch(p: Packet) returns (r: Outcome<()>)
      requires Coupled()
      modifies this, repr
      ensures Coupled() && fresh(repr - old(repr)) && Result(r, model) == Step(old(model), p)
    {
      match p.msg {
        case Req(_, _) => if p.dir.FromHost? { r := ReqSent(p); } else { r := ReqReceived(p); }
        case Rej(_, _) => if p.dir.FromHost? { r := RejSent(p); } else { r := RejReceived(p); }
        case Rep(_, _, _) => if p.dir.FromHost? { r := RepSent(p); } else { r := RepReceived(p); }
        case Rtu(_, _) => if p.dir.FromHost? { r := RtuSent(p); } else { r := RtuReceived(p); }
        case Dreq(_, _) => if p.dir.FromHost? { r := DreqSent(p); } else { r := DreqReceived(p); }
        case Drep(_, _) => if p.dir.FromHost? { r := DrepSent(p); } else { r := DrepReceived(p); }
        case Other => r := Ok(());
      }
    }
  }
}
