/** The connection tracker as a state machine on values.

    Flow objects live in `flows`, in order of creation, and an index into `flows`
    is the object's identity; an object dropped from both id maps stays there as
    garbage that no packet can reach. */
module TrackerModel {
  import opened CmTypes

  datatype Tracker = Tracker(
    flows: seq<Flow>,
    localMap: map<u32, nat>,
    remoteMap: map<RemoteKey, nat>,
    qpnMap: map<FlowKey, u32>
  ) {
    /** The id maps hold only existing flows. */
    ghost predicate Closed() {
      && (forall k :: k in localMap ==> localMap[k] < |flows|)
      && (forall k :: k in remoteMap ==> remoteMap[k] < |flows|)
    }

    function With(i: nat, f: Flow): Tracker
      requires i < |flows|
    {
      this.(flows := flows[i := f])
    }
  }

  const EMPTY_TRACKER := Tracker([], map[], map[], map[])

  /** A tracker and the flow a lookup found or made in it. */
  datatype Located = Located(tracker: Tracker, flow: nat) {
    ghost predicate Closed() {
      tracker.Closed() && flow < |tracker.flows|
    }
  }

  /** The query: the local queue pair for a destination, 0 when there is none. */
  function GetSourceQpn(t: Tracker, key: FlowKey): u32 {
    if key in t.qpnMap then t.qpnMap[key] else 0
  }

  // ---- add_new_flow, get_flow, erase_flow ----

  /** Enters flow `i` under `l`, unless `l` is 0 or already entered. */
  function BindLocal(t: Tracker, i: nat, l: u32): (r: Outcome<Tracker>)
    requires t.Closed() && i < |t.flows|
    ensures r.Ok? ==> r.value.Closed() && |r.value.flows| == |t.flows|
  {
    if l in t.localMap || l == 0 then Ok(t)
    else if t.flows[i].localId != 0 then Abort(LocalIdTaken)
    else Ok(t.With(i, t.flows[i].(localId := l)).(localMap := t.localMap[l := i]))
  }

  /** Enters flow `i` under `k`, unless `k` is invalid or already entered. */
  function BindRemote(t: Tracker, i: nat, k: RemoteKey): (r: Outcome<Tracker>)
    requires t.Closed() && i < |t.flows|
    ensures r.Ok? ==> r.value.Closed() && |r.value.flows| == |t.flows|
  {
    if k in t.remoteMap || !k.Valid() then Ok(t)
    else if t.flows[i].remoteId.Valid() then Abort(RemoteIdTaken)
    else Ok(t.With(i, t.flows[i].(remoteId := k)).(remoteMap := t.remoteMap[k := i]))
  }

  function AddNewFlow(t: Tracker, l: u32, k: RemoteKey): (r: Outcome<Located>)
    requires t.Closed()
    ensures r.Ok? ==> r.value.Closed()
  {
    if l in t.localMap && k in t.remoteMap then
      var i := t.localMap[l];
      if i != t.remoteMap[k] then Abort(MapsDisagree)
      else if t.flows[i].localId != l || t.flows[i].remoteId != k then Abort(EntryMismatch)
      else Ok(Located(t, i))
    else if l !in t.localMap && k !in t.remoteMap then
      if l == 0 && !k.Valid() then Abort(NewFlowWithoutId)
      else Bind(t.(flows := t.flows + [NEW_FLOW]), |t.flows|, l, k)
    else
      Bind(t, if l in t.localMap then t.localMap[l] else t.remoteMap[k], l, k)
  }

  function Bind(t: Tracker, i: nat, l: u32, k: RemoteKey): (r: Outcome<Located>)
    requires t.Closed() && i < |t.flows|
    ensures r.Ok? ==> r.value.Closed()
  {
    var t1 :- BindLocal(t, i, l);
    var t2 :- BindRemote(t1, i, k);
    Ok(Located(t2, i))
  }

  function GetFlow(t: Tracker, l: u32, k: RemoteKey): (r: Outcome<Located>)
    requires t.Closed()
    ensures r.Ok? ==> r.value.Closed()
  {
    if l == 0 && !k.Valid() then Abort(LookupWithoutId)
    else if l != 0 && l in t.localMap then Ok(Located(t, t.localMap[l]))
    else if l == 0 && k in t.remoteMap then Ok(Located(t, t.remoteMap[k]))
    else AddNewFlow(t, l, k)
  }

  /** The two ways on_disconnected returns early, and the one way it does not. */
  datatype Disconnect = BadQpns | NotInTable | Removed

  function DisconnectExit(t: Tracker, i: nat): Disconnect
    requires i < |t.flows|
  {
    var f := t.flows[i];
    if f.localQpn == 0 || f.remoteQpn == 0 then BadQpns
    else if f.Key() !in t.qpnMap then NotInTable
    else Removed
  }

  function OnDisconnected(t: Tracker, i: nat): (r: Tracker)
    requires t.Closed() && i < |t.flows|
    ensures r.Closed() && |r.flows| == |t.flows|
  {
    var f := t.flows[i];
    if DisconnectExit(t, i) != Removed then t
    else t.With(i, f.(inQpnMap := false)).(qpnMap := t.qpnMap - {f.Key()})
  }

  function OnEstablished(t: Tracker, i: nat): (r: Tracker)
    requires t.Closed() && i < |t.flows|
    ensures r.Closed() && |r.flows| == |t.flows|
  {
    var f := t.flows[i];
    if f.localQpn == 0 || f.remoteQpn == 0 || f.Key() in t.qpnMap then t
    else t.With(i, f.(inQpnMap := true)).(qpnMap := t.qpnMap[f.Key() := f.localQpn])
  }

  /** The flow erase_flow works on, when the id it is given leads to one. */
  function ErasedIndex(t: Tracker, l: u32, k: RemoteKey): Option<nat> {
    if l != 0 then if l in t.localMap then Some(t.localMap[l]) else None
    else if k in t.remoteMap then Some(t.remoteMap[k]) else None
  }

  function EraseFlow(t: Tracker, l: u32, k: RemoteKey): (r: Outcome<Tracker>)
    requires t.Closed()
    ensures r.Ok? ==> r.value.Closed() && |r.value.flows| == |t.flows|
  {
    if l == 0 && !k.Valid() then Abort(EraseWithoutId)
    else
      match ErasedIndex(t, l, k)
      case None => Ok(t)
      case Some(i) =>
        var u := if t.flows[i].inQpnMap then OnDisconnected(t, i) else t;
        Ok(u.(localMap := u.localMap - {l}, remoteMap := u.remoteMap - {k}))
  }

  // ---- The twelve handlers ----

  /** What a handler does to the flow it looked up. */
  datatype Action =
    | Ignore
    | Update(flow: Flow)
    | UpdateAndLink(flow: Flow)
    | Establish
    | Erase
    | Fail(failed: Assertion)

  function Decide(p: Packet, f: Flow): Action {
    match p.msg
    case Req(_, qpn) => if p.dir.FromHost? then DecideReqSent(f, qpn) else DecideReqReceived(f, qpn)
    case Rej(_, _) => if p.dir.FromHost? then DecideRejSent(f) else DecideRejReceived(f)
    case Rep(_, _, qpn) => if p.dir.FromHost? then DecideRepSent(f, qpn) else DecideRepReceived(f, qpn)
    case Rtu(_, _) => if p.dir.FromHost? then DecideRtuSent(f) else DecideRtuReceived(f)
    case Dreq(_, _) => if p.dir.FromHost? then DecideDreqSent(f) else DecideDreqReceived(f)
    case Drep(_, _) => DecideDrep(f)
    case Other => Ignore
  }

  function DecideReqSent(f: Flow, qpn: u32): Action {
    match f.phase
    case Idle | ReqSent => Update(f.(phase := ReqSent, localQpn := qpn))
    case _ => Ignore
  }

  function DecideReqReceived(f: Flow, qpn: u32): Action {
    match f.phase
    case ReqRcvd =>
      if f.remoteQpn != qpn then Fail(ReqQpnChanged) else Update(f.(phase := ReqRcvd, remoteQpn := qpn))
    case Idle => Update(f.(phase := ReqRcvd, remoteQpn := qpn))
    case _ => Ignore
  }

  function DecideRejSent(f: Flow): Action {
    match f.phase
    case Idle | ReqRcvd | ReqSent | MraReqRcvd | MraReqSent | RepRcvd | MraRepSent => Erase
    case RepSent | MraRepRcvd => Erase
    case _ => Ignore
  }

  function DecideRejReceived(f: Flow): Action {
    match f.phase
    case Idle | ReqSent | MraReqRcvd | RepSent | MraRepRcvd | MraReqSent => Erase
    case DreqSent | RepRcvd | MraRepSent | Established => Erase
    case _ => Ignore
  }

  function DecideRepSent(f: Flow, qpn: u32): Action {
    match f.phase
    case ReqRcvd | MraReqSent => UpdateAndLink(f.(phase := RepSent, localQpn := qpn))
    case _ => Ignore
  }

  function DecideRepReceived(f: Flow, qpn: u32): Action {
    match f.phase
    case ReqSent | MraReqRcvd => UpdateAndLink(f.(phase := RepRcvd, remoteQpn := qpn))
    case _ => Ignore
  }

  function DecideRtuSent(f: Flow): Action {
    match f.phase
    case RepRcvd | MraRepSent => Establish
    case _ => Ignore
  }

  function DecideRtuReceived(f: Flow): Action {
    match f.phase
    case RepSent | MraRepRcvd => Establish
    case _ => Ignore
  }

  function DecideDreqSent(f: Flow): Action {
    match f.phase
    case Idle | Established | DreqSent | DreqRcvd => Update(f.(phase := DreqSent))
    case _ => Ignore
  }

  function DecideDreqReceived(f: Flow): Action {
    match f.phase
    case RepSent | DreqSent | Established | MraRepRcvd | Timewait | DreqRcvd => Update(f.(phase := DreqRcvd))
    case _ => Ignore
  }

  /** Sent and received alike. */
  function DecideDrep(f: Flow): Action {
    match f.phase
    case DreqSent | DreqRcvd => Erase
    case _ => Ignore
  }

  function Apply(t: Tracker, i: nat, p: Packet, a: Action): (r: Outcome<Tracker>)
    requires t.Closed() && i < |t.flows|
    ensures r.Ok? ==> r.value.Closed()
  {
    match a
    case Ignore => Ok(t)
    case Update(f) => Ok(t.With(i, f))
    case UpdateAndLink(f) =>
      var at :- AddNewFlow(t.With(i, f), p.LocalId(), p.PeerKey());
      Ok(at.tracker)
    case Establish => Ok(OnEstablished(t.With(i, t.flows[i].(phase := Established)), i))
    case Erase => EraseFlow(t, p.LocalId(), p.PeerKey())
    case Fail(e) => Abort(e)
  }

  /** One packet. */
  function Step(t: Tracker, p: Packet): (r: Outcome<Tracker>)
    requires t.Closed()
    ensures r.Ok? ==> r.value.Closed()
  {
    if p.msg.Other? then Ok(t)
    else
      var at :- GetFlow(t, p.LocalId(), p.LookupKey());
      Apply(at.tracker, at.flow, p, Decide(p, at.tracker.flows[at.flow]))
  }

  /** A sequence of packets; a failed assert ends the run. */
  function Run(t: Tracker, ps: seq<Packet>): (r: Outcome<Tracker>)
    requires t.Closed()
    ensures r.Ok? ==> r.value.Closed()
  {
    if ps == [] then Ok(t)
    else
      var u :- Run(t, ps[..|ps| - 1]);
      Step(u, ps[|ps| - 1])
  }
}
