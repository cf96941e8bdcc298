/** The values the connection tracker works on: addresses and identifiers, the
    communication management (CM) messages it watches, and the record it keeps
    for each flow. */
module CmTypes {

  /** `id_t`, `qpn_t` and `in_addr_t` are all 32-bit unsigned. */
  type u32 = x: int | 0 <= x < 0x1_0000_0000

  /** Remote IP address and remote communication id. */
  datatype RemoteKey = RemoteKey(addr: u32, id: u32) {
    /** The key's conversion to bool: both halves are nonzero. */
    predicate Valid() {
      addr != 0 && id != 0
    }
  }

  const NO_KEY := RemoteKey(0, 0)

  /** Destination IP address and destination queue pair number. */
  datatype FlowKey = FlowKey(addr: u32, qpn: u32)

  datatype FlowPhase =
    | Idle
    | ReqSent
    | ReqRcvd
    | MraReqRcvd
    | MraReqSent
    | MraRepSent
    | MraRepRcvd
    | RepSent
    | RepRcvd
    | Established
    | DreqSent
    | DreqRcvd
    | Timewait

  /** The fields of one `flow_state` object. */
  datatype Flow = Flow(
    phase: FlowPhase,
    localId: u32,
    remoteId: RemoteKey,
    localQpn: u32,
    remoteQpn: u32,
    inQpnMap: bool
  ) {
    function Key(): FlowKey {
      FlowKey(remoteId.addr, remoteQpn)
    }
  }

  const NEW_FLOW := Flow(Idle, 0, NO_KEY, 0, 0, false)

  datatype Direction = FromHost | FromNet

  /** The six tracked messages, with the ids and queue pair numbers they carry;
      `Other` is every management datagram without a handler. */
  datatype Message =
    | Req(localCommId: u32, localQpn: u32)
    | Rej(localCommId: u32, remoteCommId: u32)
    | Rep(localCommId: u32, remoteCommId: u32, localQpn: u32)
    | Rtu(localCommId: u32, remoteCommId: u32)
    | Dreq(localCommId: u32, remoteCommId: u32)
    | Drep(localCommId: u32, remoteCommId: u32)
    | Other

  datatype Packet = Packet(dir: Direction, saddr: u32, daddr: u32, msg: Message) {

    /** The packet carries `l` as the tracked host's communication id: a sender puts
        its own id first and its peer's second, and a REQ has no second one. */
    predicate NamesLocal(l: u32) {
      match dir
      case FromHost => !msg.Other? && msg.localCommId == l
      case FromNet => !msg.Other? && !msg.Req? && msg.remoteCommId == l
    }

    /** The packet carries `k` as the peer's address and id; of RTUs and DREQs the
        tracker reads the local id only. */
    predicate NamesPeer(k: RemoteKey) {
      match dir
      case FromHost => (msg.Rej? || msg.Rep? || msg.Drep?) && k == RemoteKey(daddr, msg.remoteCommId)
      case FromNet => (msg.Req? || msg.Rej? || msg.Rep? || msg.Drep?) && k == RemoteKey(saddr, msg.localCommId)
    }

    /** The tracked host's communication id in this packet, 0 when it has none. */
    function LocalId(): u32 {
      if msg.Other? then 0
      else if dir.FromHost? then msg.localCommId
      else if msg.Req? then 0
      else msg.remoteCommId
    }

    /** The peer's key in this packet, for the messages whose handler reads it. */
    function PeerKey(): RemoteKey {
      if msg.Other? || msg.Rtu? || msg.Dreq? then NO_KEY
      else if dir.FromNet? then RemoteKey(saddr, msg.localCommId)
      else if msg.Req? then NO_KEY
      else RemoteKey(daddr, msg.remoteCommId)
    }

    /** The peer key the handler passes to the flow lookup; a received REP and
        both DREPs look the flow up by local id alone. */
    function LookupKey(): RemoteKey {
      if msg.Drep? || (dir.FromNet? && msg.Rep?) then NO_KEY else PeerKey()
    }
  }

  /** The ids the handlers work with are the ones the packet's fields carry. */
  lemma HandlersReadNames(p: Packet)
    ensures forall l: u32 :: l != 0 ==> (p.LocalId() == l <==> p.NamesLocal(l))
    ensures forall k: RemoteKey :: k.Valid() ==> (p.PeerKey() == k <==> p.NamesPeer(k))
  { }

  /** The source's asserts; a run ends at the first one that fails. */
  datatype Assertion =
    | LookupWithoutId      // get_flow: an id or a valid key is given
    | EraseWithoutId       // erase_flow: an id or a valid key is given
    | MapsDisagree         // add_new_flow: both maps lead to one flow
    | EntryMismatch        // add_new_flow: that flow records both ids
    | NewFlowWithoutId     // add_new_flow: a new flow has an id
    | NoFlow               // add_new_flow: a flow was chosen
    | LocalIdTaken         // add_new_flow: the flow had no local id
    | RemoteIdTaken        // add_new_flow: the flow had no remote id
    | ReqQpnChanged        // req_received: a repeated REQ repeats its QPN

  datatype Option<+T> = None | Some(value: T)

  datatype Outcome<+T> = Ok(value: T) | Abort(failed: Assertion) {
    predicate IsFailure() {
      Abort?
    }

    function PropagateFailure<U>(): Outcome<U>
      requires Abort?
    {
      Abort(failed)
    }

    function Extract(): T
      requires Ok?
    {
      value
    }
  }
}
