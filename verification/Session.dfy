/** One connection's packets, interleaved with anything that does not name it. */
module Session {
  import opened CmTypes
  import opened TrackerModel
  import opened TrackerInvariant
  import opened Locality
  import opened Handlers
  import opened Retransmission

  datatype Role = Active | Passive

  /** A connection as one end sees it: its own id and QPN, the peer's address, id
      and QPN, and whether this end sends the REQ. */
  datatype Session = Session(role: Role, l: u32, q: u32, ip: u32, r: u32, d: u32) {
    predicate Proper() {
      l != 0 && q != 0 && ip != 0 && r != 0 && d != 0
    }

    function Peer(): RemoteKey {
      RemoteKey(ip, r)
    }

    function Key(): FlowKey {
      FlowKey(ip, d)
    }
  }

  datatype Stage = Absent | Requested | Replied | Open | Closing(byPeer: bool)

  predicate Up(stage: Stage) {
    stage.Open? || stage.Closing?
  }

  /** Both maps lead to one flow, with these fields. */
  ghost predicate Holds(t: Tracker, s: Session, phase: FlowPhase, marked: bool)
    requires t.Closed()
  {
    && s.l in t.localMap && s.Peer() in t.remoteMap && t.localMap[s.l] == t.remoteMap[s.Peer()]
    && t.flows[t.localMap[s.l]] == Flow(phase, s.l, s.Peer(), s.q, s.d, marked)
  }

  /** How far the tracker has followed the session. */
  ghost predicate InStage(t: Tracker, s: Session, stage: Stage)
    requires t.Closed()
  {
    match stage
    case Absent => s.l !in t.localMap && s.Peer() !in t.remoteMap
    case Requested =>
      if s.role.Active? then
        && s.l in t.localMap && s.Peer() !in t.remoteMap
        && t.flows[t.localMap[s.l]] == Flow(ReqSent, s.l, NO_KEY, s.q, 0, false)
      else
        && s.l !in t.localMap && s.Peer() in t.remoteMap
        && t.flows[t.remoteMap[s.Peer()]] == Flow(ReqRcvd, 0, s.Peer(), 0, s.d, false)
    case Replied => Holds(t, s, if s.role.Active? then RepRcvd else RepSent, false)
    case Open => Holds(t, s, Established, true)
    case Closing(byPeer) => Holds(t, s, if byPeer then DreqRcvd else DreqSent, true)
  }

  /** The packet names neither the session's local id nor its peer key. */
  predicate Foreign(p: Packet, s: Session) {
    !p.NamesLocal(s.l) && !p.NamesPeer(s.Peer())
  }

  predicate IsReq(p: Packet, s: Session) {
    if s.role.Active? then p.dir.FromHost? && p.msg == Req(s.l, s.q)
    else p.dir.FromNet? && p.saddr == s.ip && p.msg == Req(s.r, s.d)
  }

  predicate IsRep(p: Packet, s: Session) {
    if s.role.Active? then p.dir.FromNet? && p.saddr == s.ip && p.msg == Rep(s.r, s.l, s.d)
    else p.dir.FromHost? && p.daddr == s.ip && p.msg == Rep(s.l, s.r, s.q)
  }

  predicate IsRtu(p: Packet, s: Session) {
    if s.role.Active? then p.dir.FromHost? && p.msg.Rtu? && p.msg.localCommId == s.l
    else p.dir.FromNet? && p.msg.Rtu? && p.msg.remoteCommId == s.l
  }

  /** Either end may send the DREQ, and either the DREP. */
  predicate IsDreq(p: Packet, s: Session) {
    p.msg.Dreq? && s.l == if p.dir.FromHost? then p.msg.localCommId else p.msg.remoteCommId
  }

  predicate IsDrep(p: Packet, s: Session) {
    if p.dir.FromHost? then p.daddr == s.ip && p.msg == Drep(s.l, s.r)
    else p.saddr == s.ip && p.msg == Drep(s.r, s.l)
  }

  /** Either end may refuse. */
  predicate IsRej(p: Packet, s: Session) {
    if p.dir.FromHost? then p.daddr == s.ip && p.msg == Rej(s.l, s.r)
    else p.saddr == s.ip && p.msg == Rej(s.r, s.l)
  }

  /** What a REJ does to the session: the tracker lets either end refuse before the
      RTU, but the peer not its own request, and lets only the peer refuse afterwards,
      until the peer itself has sent a DREQ. */
  function NextAfterRej(s: Session, stage: Stage, dir: Direction): Option<Stage> {
    match stage
    case Absent => Some(Absent)
    case Requested => if s.role.Passive? && dir.FromNet? then None else Some(Absent)
    case Replied => Some(Absent)
    case Open => Some(if dir.FromNet? then Absent else Open)
    case Closing(byPeer) => Some(if dir.FromNet? && !byPeer then Absent else stage)
  }

  /** The stage after one of the session's own packets, first copy or
      retransmission; None for a packet that is out of order. */
  function Next(s: Session, stage: Stage, p: Packet): Option<Stage> {
    if IsReq(p, s) then Some(if stage.Absent? then Requested else stage)
    else if IsRep(p, s) && !stage.Absent? then Some(if stage.Requested? then Replied else stage)
    else if IsRtu(p, s) && !stage.Absent? && !stage.Requested? then Some(if stage.Replied? then Open else stage)
    else if IsRej(p, s) then NextAfterRej(s, stage, p.dir)
    else if IsDreq(p, s) && Up(stage) then Some(Closing(p.dir.FromNet?))
    else if IsDrep(p, s) && stage.Closing? then Some(Absent)
    else None
  }

  // ---- One packet ----

  lemma ForeignKeepsStage(t: Tracker, s: Session, stage: Stage, p: Packet)
    requires Inv(t) && s.Proper() && InStage(t, s, stage) && Foreign(p, s) && Step(t, p).Ok?
    ensures InStage(Step(t, p).value, s, stage)
  {
    var u := Step(t, p).value;
    if !p.msg.Other? {
      StepTouches(t, p);
      assert SameAt(t.localMap, u.localMap, s.l) && SameAt(t.remoteMap, u.remoteMap, s.Peer());
      if s.l in t.localMap {
        UnnamedFlowIsUntouched(t, p, t.localMap[s.l]);
      } else if s.Peer() in t.remoteMap {
        UnnamedFlowIsUntouched(t, p, t.remoteMap[s.Peer()]);
      }
    }
  }

  /** Outside the session's own ids and key, `u` has the entries `t` has. */
  ghost predicate SameElsewhere(t: Tracker, u: Tracker, s: Session) {
    && u.localMap - {s.l} == t.localMap - {s.l}
    && u.remoteMap - {s.Peer()} == t.remoteMap - {s.Peer()}
    && u.qpnMap - {s.Key()} == t.qpnMap - {s.Key()}
  }

  /** The session went from `stage` to `m`; nothing else is disturbed, and its key comes
      and goes with its being up. */
  ghost predicate Advanced(t: Tracker, u: Tracker, s: Session, stage: Stage, m: Stage)
    requires u.Closed()
  {
    && InStage(u, s, m) && SameElsewhere(t, u, s)
    && if Up(stage) == Up(m) then u.qpnMap == t.qpnMap else s.Key() in u.qpnMap <==> Up(m)
  }

  /** The active end's REQ makes a flow known by local id only. */
  lemma FirstReqActive(t: Tracker, s: Session, p: Packet)
    requires IdsExact(t) && s.Proper() && s.role.Active? && InStage(t, s, Absent) && IsReq(p, s)
    ensures Step(t, p) == Ok(t.(flows := t.flows + [Flow(ReqSent, s.l, NO_KEY, s.q, 0, false)],
                                localMap := t.localMap[s.l := |t.flows|]))
  {
    LookupUnknown(t, s.l, NO_KEY);
    var f, g := NEW_FLOW.(localId := s.l), Flow(ReqSent, s.l, NO_KEY, s.q, 0, false);
    assert (t.flows + [f])[|t.flows| := g] == t.flows + [g];
  }

  /** The passive end's REQ makes a flow known by peer key only. */
  lemma FirstReqPassive(t: Tracker, s: Session, p: Packet)
    requires IdsExact(t) && s.Proper() && s.role.Passive? && InStage(t, s, Absent) && IsReq(p, s)
    ensures Step(t, p) == Ok(t.(flows := t.flows + [Flow(ReqRcvd, 0, s.Peer(), 0, s.d, false)],
                                remoteMap := t.remoteMap[s.Peer() := |t.flows|]))
  {
    LookupUnknown(t, 0, s.Peer());
    var f, g := NEW_FLOW.(remoteId := s.Peer()), Flow(ReqRcvd, 0, s.Peer(), 0, s.d, false);
    assert (t.flows + [f])[|t.flows| := g] == t.flows + [g];
  }

  /** A REQ to a tracker that knows neither id. */
  lemma FirstReq(t: Tracker, s: Session, p: Packet)
    requires IdsExact(t) && s.Proper() && InStage(t, s, Absent) && IsReq(p, s)
    ensures Step(t, p).Ok? && InStage(Step(t, p).value, s, Requested)
    ensures SameElsewhere(t, Step(t, p).value, s) && Step(t, p).value.qpnMap == t.qpnMap
  {
    if s.role.Active? {
      FirstReqActive(t, s, p);
    } else {
      FirstReqPassive(t, s, p);
    }
  }

  lemma FirstRepActive(t: Tracker, s: Session, p: Packet)
    requires IdsExact(t) && s.Proper() && s.role.Active? && InStage(t, s, Requested) && IsRep(p, s)
    ensures Step(t, p).Ok? && InStage(Step(t, p).value, s, Replied)
    ensures SameElsewhere(t, Step(t, p).value, s) && Step(t, p).value.qpnMap == t.qpnMap
  { }

  lemma FirstRepPassive(t: Tracker, s: Session, p: Packet)
    requires IdsExact(t) && s.Proper() && s.role.Passive? && InStage(t, s, Requested) && IsRep(p, s)
    ensures Step(t, p).Ok? && InStage(Step(t, p).value, s, Replied)
    ensures SameElsewhere(t, Step(t, p).value, s) && Step(t, p).value.qpnMap == t.qpnMap
  { }

  lemma FirstRtu(t: Tracker, s: Session, p: Packet)
    requires Inv(t) && s.Proper() && InStage(t, s, Replied) && IsRtu(p, s) && s.Key() !in t.qpnMap
    ensures Step(t, p).Ok? && InStage(Step(t, p).value, s, Open)
    ensures SameElsewhere(t, Step(t, p).value, s) && Step(t, p).value.qpnMap == t.qpnMap[s.Key() := s.q]
  {
    RtuOpens(t, s, p);
  }

  lemma RtuOpens(t: Tracker, s: Session, p: Packet)
    requires Inv(t) && s.Proper() && InStage(t, s, Replied) && IsRtu(p, s)
    ensures Step(t, p) == Ok(Opened(t, t.localMap[s.l]))
  {
    if p.dir.FromHost? {
      SentRtu(t, p.saddr, p.daddr, s.l, p.msg.remoteCommId);
    } else {
      ReceivedRtu(t, p.saddr, p.daddr, p.msg.localCommId, s.l);
    }
  }

  lemma DreqCloses(t: Tracker, s: Session, stage: Stage, p: Packet)
    requires Inv(t) && s.Proper() && Up(stage) && InStage(t, s, stage) && IsDreq(p, s)
    ensures Step(t, p).Ok? && InStage(Step(t, p).value, s, Closing(p.dir.FromNet?))
    ensures SameElsewhere(t, Step(t, p).value, s) && Step(t, p).value.qpnMap == t.qpnMap
  {
    if p.dir.FromHost? {
      SentDreq(t, p.saddr, p.daddr, s.l, p.msg.remoteCommId);
    } else {
      ReceivedDreq(t, p.saddr, p.daddr, p.msg.localCommId, s.l);
    }
  }

  /** What erasing the session's flow leaves. */
  lemma ErasedElsewhere(t: Tracker, u: Tracker, s: Session)
    requires u.Closed() && u.localMap == t.localMap - {s.l} && u.remoteMap == t.remoteMap - {s.Peer()}
    requires u.qpnMap == t.qpnMap - {s.Key()} || u.qpnMap == t.qpnMap
    ensures InStage(u, s, Absent) && SameElsewhere(t, u, s)
  { }

  /** The DREP removes both ids and the query table entry. */
  lemma DrepClears(t: Tracker, s: Session, p: Packet)
    requires Inv(t) && s.Proper() && (InStage(t, s, Closing(true)) || InStage(t, s, Closing(false))) && IsDrep(p, s)
    ensures Step(t, p).Ok? && InStage(Step(t, p).value, s, Absent)
    ensures SameElsewhere(t, Step(t, p).value, s) && s.Key() in t.qpnMap && s.Key() !in Step(t, p).value.qpnMap
  {
    var i := t.localMap[s.l];
    assert Indexed(t, i);
    DrepErases(t, s, p);
    ErasedElsewhere(t, Erased(t, i, s.l, s.Peer()), s);
  }

  lemma DrepErases(t: Tracker, s: Session, p: Packet)
    requires Inv(t) && s.l in t.localMap && t.flows[t.localMap[s.l]].phase in {DreqSent, DreqRcvd} && IsDrep(p, s)
    ensures Step(t, p) == Ok(Erased(t, t.localMap[s.l], s.l, s.Peer()))
  {
    if p.dir.FromHost? {
      SentDrep(t, p.saddr, p.daddr, s.l, s.r);
    } else {
      ReceivedDrep(t, p.saddr, p.daddr, s.r, s.l);
    }
  }

  /** A REJ whose flow both ids lead to, or the local id alone. */
  lemma RejKnown(t: Tracker, s: Session, stage: Stage, p: Packet)
    requires Inv(t) && s.Proper() && InStage(t, s, stage) && IsRej(p, s) && s.l in t.localMap
    ensures Step(t, p).Ok? && NextAfterRej(s, stage, p.dir).Some?
    ensures
      var i := t.localMap[s.l];
      Step(t, p).value == if NextAfterRej(s, stage, p.dir) == Some(Absent) then Erased(t, i, s.l, s.Peer()) else t
  {
    KnownRej(t, p, s.l, s.Peer());
  }

  lemma RejKnownEnds(t: Tracker, s: Session, stage: Stage, p: Packet)
    requires Inv(t) && s.Proper() && InStage(t, s, stage) && IsRej(p, s) && s.l in t.localMap
    ensures Step(t, p).Ok? && NextAfterRej(s, stage, p.dir).Some?
    ensures Advanced(t, Step(t, p).value, s, stage, NextAfterRej(s, stage, p.dir).value)
  {
    RejKnown(t, s, stage, p);
    if NextAfterRej(s, stage, p.dir) == Some(Absent) {
      ErasedElsewhere(t, Step(t, p).value, s);
    }
  }

  /** The host's REJ of a request it has only received. */
  lemma HostRefuses(t: Tracker, s: Session, p: Packet)
    requires Inv(t) && s.Proper() && s.role.Passive? && InStage(t, s, Requested) && IsRej(p, s)
    ensures Step(t, p).Ok?
    ensures
      var u := Step(t, p).value;
      if p.dir.FromHost? then InStage(u, s, Absent) && SameElsewhere(t, u, s) && u.qpnMap == t.qpnMap
      else u == WithLocalId(t, s.l, s.Peer())
  {
    UnknownLocalIdOfPeer(t, p, s.l, s.Peer());
    WithLocalIdHasInv(t, s.l, s.Peer());
    LinkedRej(t, p, s.l, s.Peer());
    LinkedErase(t, s.l, s.Peer());
    if p.dir.FromHost? {
      ErasedElsewhere(t, Step(t, p).value, s);
    }
  }

  /** A REJ by either end, at any stage. */
  lemma RejAdvances(t: Tracker, s: Session, stage: Stage, p: Packet)
    requires Inv(t) && s.Proper() && InStage(t, s, stage) && IsRej(p, s) && NextAfterRej(s, stage, p.dir).Some?
    ensures Step(t, p).Ok? && Advanced(t, Step(t, p).value, s, stage, NextAfterRej(s, stage, p.dir).value)
  {
    if stage.Absent? {
      RejUnknown(t, p);
    } else if s.l in t.localMap {
      RejKnownEnds(t, s, stage, p);
    } else {
      HostRefuses(t, s, p);
    }
  }

  /** Before the RTU a REJ by either end makes the tracker forget both ids and nothing
      else, unless it is the peer's REJ of its own request: that one is ignored, and
      the flow only learns the local id. */
  lemma RefusedExactly(t: Tracker, s: Session, stage: Stage, p: Packet)
    requires Inv(t) && s.Proper() && InStage(t, s, stage) && (stage.Requested? || stage.Replied?) && IsRej(p, s)
    ensures Step(t, p).Ok?
    ensures
      var u := Step(t, p).value;
      && (InStage(u, s, Absent) <==> !(s.role.Passive? && stage.Requested? && p.dir.FromNet?))
      && (InStage(u, s, Absent) ==> SameElsewhere(t, u, s) && u.qpnMap == t.qpnMap)
      && (!InStage(u, s, Absent) ==> u == WithLocalId(t, s.l, s.Peer()))
  {
    if s.l in t.localMap {
      RejAdvances(t, s, stage, p);
    } else {
      HostRefuses(t, s, p);
    }
  }

  /** A handshake packet seen again, at this stage or later, changes nothing. */
  lemma LateCopy(t: Tracker, s: Session, stage: Stage, p: Packet)
    requires IdsExact(t) && s.Proper() && InStage(t, s, stage) && Next(s, stage, p) == Some(stage)
    requires !p.msg.Dreq? && !p.msg.Rej?
    ensures Step(t, p) == Ok(t)
  {
    var i := if s.l in t.localMap then t.localMap[s.l] else t.remoteMap[s.Peer()];
    LookupAgain(t, i, p);
    assert t.With(i, t.flows[i]) == t;
  }

  /** One of the session's own packets, in order or again, never aborts and takes
      the tracker to the next stage; nothing else is disturbed. */
  lemma OwnPacketAdvances(t: Tracker, s: Session, stage: Stage, p: Packet)
    requires Inv(t) && s.Proper() && InStage(t, s, stage) && Next(s, stage, p).Some?
    requires IsRtu(p, s) && stage.Replied? ==> s.Key() !in t.qpnMap
    ensures Step(t, p).Ok? && Advanced(t, Step(t, p).value, s, stage, Next(s, stage, p).value)
  {
    if p.msg.Rej? {
      RejAdvances(t, s, stage, p);
    } else if p.msg.Dreq? || p.msg.Drep? {
      TeardownAdvances(t, s, stage, p);
    } else if Next(s, stage, p) != Some(stage) {
      HandshakeAdvances(t, s, stage, p);
    } else {
      LateCopyStays(t, s, stage, p);
    }
  }

  lemma LateCopyStays(t: Tracker, s: Session, stage: Stage, p: Packet)
    requires IdsExact(t) && s.Proper() && InStage(t, s, stage) && Next(s, stage, p) == Some(stage)
    requires !p.msg.Dreq? && !p.msg.Rej?
    ensures Step(t, p).Ok? && Advanced(t, Step(t, p).value, s, stage, stage)
  {
    LateCopy(t, s, stage, p);
  }

  lemma TeardownAdvances(t: Tracker, s: Session, stage: Stage, p: Packet)
    requires Inv(t) && s.Proper() && InStage(t, s, stage) && Up(stage)
    requires IsDreq(p, s) || (IsDrep(p, s) && stage.Closing?)
    ensures
      Step(t, p).Ok? &&
      Advanced(t, Step(t, p).value, s, stage, if p.msg.Dreq? then Closing(p.dir.FromNet?) else Absent)
  {
    if p.msg.Dreq? {
      DreqCloses(t, s, stage, p);
    } else {
      DrepClears(t, s, p);
    }
  }

  lemma HandshakeAdvances(t: Tracker, s: Session, stage: Stage, p: Packet)
    requires Inv(t) && s.Proper() && InStage(t, s, stage)
    requires IsReq(p, s) || IsRep(p, s) || IsRtu(p, s)
    requires Next(s, stage, p).Some? && Next(s, stage, p) != Some(stage)
    requires IsRtu(p, s) && stage.Replied? ==> s.Key() !in t.qpnMap
    ensures Step(t, p).Ok? && Advanced(t, Step(t, p).value, s, stage, Next(s, stage, p).value)
  {
    if IsReq(p, s) {
      FirstReq(t, s, p);
    } else if IsRtu(p, s) {
      FirstRtu(t, s, p);
    } else if s.role.Active? {
      FirstRepActive(t, s, p);
    } else {
      FirstRepPassive(t, s, p);
    }
  }

  /** While the session is up the query answers with its QPN. */
  lemma UpAnswers(t: Tracker, s: Session, stage: Stage)
    requires Inv(t) && InStage(t, s, stage) && Up(stage)
    ensures GetSourceQpn(t, s.Key()) == s.q
  { }

  /** The RTU gives the session its entry exactly when the key is free then. */
  lemma RtuOpensExactlyWhenFree(t: Tracker, s: Session, p: Packet)
    requires Inv(t) && s.Proper() && InStage(t, s, Replied) && IsRtu(p, s)
    ensures Step(t, p).Ok? && (InStage(Step(t, p).value, s, Open) <==> s.Key() !in t.qpnMap)
    ensures s.Key() in t.qpnMap ==> Step(t, p).value.qpnMap == t.qpnMap
  {
    RtuOpens(t, s, p);
    if s.Key() !in t.qpnMap {
      FirstRtu(t, s, p);
    }
  }

  // ---- Whole runs ----

  /** The stage after a run of the session's packets among foreign ones. */
  function StageAfter(s: Session, stage: Stage, ps: seq<Packet>): Option<Stage> {
    if ps == [] then Some(stage)
    else
      var n, p := |ps| - 1, ps[|ps| - 1];
      match StageAfter(s, stage, ps[..n])
      case None => None
      case Some(m) => if Foreign(p, s) then Some(m) else Next(s, m, p)
  }

  /** Whenever the session's first RTU arrives, its key is free. */
  ghost predicate FreeAtRtu(t: Tracker, s: Session, stage: Stage, ps: seq<Packet>)
    requires t.Closed() && Run(t, ps).Ok?
  {
    if ps == [] then true
    else
      var n, p := |ps| - 1, ps[|ps| - 1];
      && FreeAtRtu(t, s, stage, ps[..n])
      && (IsRtu(p, s) && StageAfter(s, stage, ps[..n]) == Some(Replied) ==> s.Key() !in Run(t, ps[..n]).value.qpnMap)
  }

  lemma {:induction false} StageIsFollowed(t: Tracker, s: Session, stage: Stage, ps: seq<Packet>)
    requires Inv(t) && s.Proper() && InStage(t, s, stage) && Run(t, ps).Ok?
    requires StageAfter(s, stage, ps).Some? && FreeAtRtu(t, s, stage, ps)
    ensures InStage(Run(t, ps).value, s, StageAfter(s, stage, ps).value)
  {
    if ps != [] {
      var n, p := |ps| - 1, ps[|ps| - 1];
      StageIsFollowed(t, s, stage, ps[..n]);
      RunKeepsInv(t, ps[..n]);
      var u, m := Run(t, ps[..n]).value, StageAfter(s, stage, ps[..n]).value;
      if Foreign(p, s) {
        ForeignKeepsStage(u, s, m, p);
      } else {
        OwnPacketAdvances(u, s, m, p);
      }
    }
  }

  /** The packet that takes the session down, be it a DREP or a REJ, frees its key. */
  lemma {:induction false} EndingFreesKey(t: Tracker, s: Session, ps: seq<Packet>)
    requires Inv(t) && s.Proper() && InStage(t, s, Absent) && Run(t, ps).Ok? && FreeAtRtu(t, s, Absent, ps)
    requires StageAfter(s, Absent, ps) == Some(Absent) && JustEnded(s, ps)
    ensures s.Key() !in Run(t, ps).value.qpnMap
  {
    var front := ps[..|ps| - 1];
    StageIsFollowed(t, s, Absent, front);
    RunKeepsInv(t, front);
    OwnPacketAdvances(Run(t, front).value, s, StageAfter(s, Absent, front).value, ps[|ps| - 1]);
  }

  /** The session was up until the last packet. */
  predicate JustEnded(s: Session, ps: seq<Packet>) {
    && ps != [] && StageAfter(s, Absent, ps[..|ps| - 1]).Some?
    && Up(StageAfter(s, Absent, ps[..|ps| - 1]).value) && StageAfter(s, Absent, ps) == Some(Absent)
  }

  /** The session theorem: starting from a tracker that knows neither id, under
      any interleaving with packets that name neither, the query answers the
      session's QPN from its RTU until its DREP or the REJ that ends it; from then on
      neither id is known, and right after it the query finds nothing. */
  lemma {:induction false} SessionTheorem(t: Tracker, s: Session, ps: seq<Packet>)
    requires Inv(t) && s.Proper() && InStage(t, s, Absent) && Run(t, ps).Ok?
    requires StageAfter(s, Absent, ps).Some? && FreeAtRtu(t, s, Absent, ps)
    ensures
      var u, stage := Run(t, ps).value, StageAfter(s, Absent, ps).value;
      && (Up(stage) ==> GetSourceQpn(u, s.Key()) == s.q)
      && (stage.Absent? ==> s.l !in u.localMap && s.Peer() !in u.remoteMap)
      && (JustEnded(s, ps) ==> GetSourceQpn(u, s.Key()) == 0)
  {
    StageIsFollowed(t, s, Absent, ps);
    RunKeepsInv(t, ps);
    var stage := StageAfter(s, Absent, ps).value;
    if Up(stage) {
      UpAnswers(Run(t, ps).value, s, stage);
    } else if JustEnded(s, ps) {
      EndingFreesKey(t, s, ps);
    }
  }

  /** No packet of the run is foreign. */
  ghost predicate Undisturbed(s: Session, ps: seq<Packet>) {
    forall i :: 0 <= i < |ps| ==> !Foreign(ps[i], s)
  }

  lemma {:induction false} UndisturbedRun(t: Tracker, s: Session, ps: seq<Packet>)
    requires Inv(t) && s.Proper() && InStage(t, s, Absent) && s.Key() !in t.qpnMap
    requires Undisturbed(s, ps) && StageAfter(s, Absent, ps).Some?
    ensures
      var m := StageAfter(s, Absent, ps).value;
      && Run(t, ps).Ok? && InStage(Run(t, ps).value, s, m)
      && SameElsewhere(t, Run(t, ps).value, s) && (s.Key() in Run(t, ps).value.qpnMap <==> Up(m))
  {
    if ps != [] {
      var n, p := |ps| - 1, ps[|ps| - 1];
      UndisturbedRun(t, s, ps[..n]);
      RunKeepsInv(t, ps[..n]);
      OwnPacketAdvances(Run(t, ps[..n]).value, s, StageAfter(s, Absent, ps[..n]).value, p);
    }
  }

  lemma AbsentFromBoth<K, V>(m: map<K, V>, n: map<K, V>, x: K)
    requires x !in m && x !in n && n - {x} == m - {x}
    ensures n == m
  {
    assert n - {x} == n && m - {x} == m;
  }

  /** Undisturbed, a session that has come and gone never aborts and leaves all
      three maps as they were. */
  lemma {:induction false} UndisturbedSessionRestores(t: Tracker, s: Session, ps: seq<Packet>)
    requires Inv(t) && s.Proper() && InStage(t, s, Absent) && s.Key() !in t.qpnMap
    requires Undisturbed(s, ps) && StageAfter(s, Absent, ps) == Some(Absent)
    ensures Run(t, ps).Ok?
    ensures var u := Run(t, ps).value; u.localMap == t.localMap && u.remoteMap == t.remoteMap && u.qpnMap == t.qpnMap
  {
    UndisturbedRun(t, s, ps);
    var u := Run(t, ps).value;
    AbsentFromBoth(t.localMap, u.localMap, s.l);
    AbsentFromBoth(t.remoteMap, u.remoteMap, s.Peer());
    AbsentFromBoth(t.qpnMap, u.qpnMap, s.Key());
  }

  lemma {:induction false} PlainOpening(s: Session, req: Packet, rep: Packet, rtu: Packet)
    requires s.Proper() && IsReq(req, s) && IsRep(rep, s) && IsRtu(rtu, s)
    ensures StageAfter(s, Absent, [req, rep, rtu]) == Some(Open) && Undisturbed(s, [req, rep, rtu])
  {
    assert [] + [req] == [req] && [req] + [rep] == [req, rep] && [req, rep] + [rtu] == [req, rep, rtu];
    StageOfOne(s, Absent, [], req);
    StageOfOne(s, Absent, [req], rep);
    StageOfOne(s, Absent, [req, rep], rtu);
  }

  /** The plain handshake and teardown is such a run, from either end. */
  lemma {:induction false} PlainSession(s: Session, req: Packet, rep: Packet, rtu: Packet, dreq: Packet, drep: Packet)
    requires s.Proper() && IsReq(req, s) && IsRep(rep, s) && IsRtu(rtu, s) && IsDreq(dreq, s) && IsDrep(drep, s)
    ensures StageAfter(s, Absent, [req, rep, rtu]) == Some(Open)
    ensures StageAfter(s, Absent, [req, rep, rtu, dreq, drep]) == Some(Absent)
    ensures Undisturbed(s, [req, rep, rtu, dreq, drep])
  {
    var up := [req, rep, rtu];
    PlainOpening(s, req, rep, rtu);
    StageOfOne(s, Absent, up, dreq);
    StageOfOne(s, Absent, up + [dreq], drep);
    assert up + [dreq] + [drep] == [req, rep, rtu, dreq, drep];
  }

  lemma {:induction false} StageOfOne(s: Session, stage: Stage, ps: seq<Packet>, p: Packet)
    requires StageAfter(s, stage, ps).Some?
    ensures
      StageAfter(s, stage, ps + [p]) ==
      if Foreign(p, s) then StageAfter(s, stage, ps) else Next(s, StageAfter(s, stage, ps).value, p)
  { }
}
