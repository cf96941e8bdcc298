/** Every answer of the query table can be traced to a handshake in the packets seen. */
module Provenance {
  import opened CmTypes
  import opened TrackerModel
  import opened TrackerInvariant
  import opened Locality
  import opened Asserts

  // ---- The packets of a handshake, as they bear on flow `f` ----

  predicate ReqOut(p: Packet, f: Flow) {
    p.dir.FromHost? && p.msg == Req(f.localId, f.localQpn)
  }

  /** A received REP names the flow's local id; its peer key, when valid, is the
      one the flow recorded. */
  predicate RepIn(p: Packet, f: Flow) {
    && p.dir.FromNet? && p.msg.Rep? && p.msg.remoteCommId == f.localId && p.msg.localQpn == f.remoteQpn
    && var k := RemoteKey(p.saddr, p.msg.localCommId); k.Valid() ==> k == f.remoteId
  }

  predicate RtuOut(p: Packet, f: Flow) {
    p.dir.FromHost? && p.msg.Rtu? && p.msg.localCommId == f.localId
  }

  predicate ReqIn(p: Packet, f: Flow) {
    && p.dir.FromNet? && p.msg.Req? && RemoteKey(p.saddr, p.msg.localCommId) == f.remoteId
    && p.msg.localQpn == f.remoteQpn
  }

  predicate RepOut(p: Packet, f: Flow) {
    && p.dir.FromHost? && p.msg.Rep? && p.msg.localQpn == f.localQpn
    && (p.msg.localCommId != 0 ==> p.msg.localCommId == f.localId)
    && var k := RemoteKey(p.daddr, p.msg.remoteCommId); k.Valid() ==> k == f.remoteId
  }

  predicate RtuIn(p: Packet, f: Flow) {
    p.dir.FromNet? && p.msg.Rtu? && p.msg.remoteCommId == f.localId
  }

  // ---- What the history holds for a flow, by phase ----

  ghost predicate Requested(h: seq<Packet>, f: Flow, a: int) {
    0 <= a < |h| &&
    (if f.phase.ReqSent? then f.localId != 0 && ReqOut(h[a], f) else f.remoteId.Valid() && ReqIn(h[a], f))
  }

  ghost predicate RepliedActive(h: seq<Packet>, f: Flow, a: int, b: int) {
    f.localId != 0 && 0 <= a < b < |h| && ReqOut(h[a], f) && RepIn(h[b], f)
  }

  ghost predicate RepliedPassive(h: seq<Packet>, f: Flow, a: int, b: int) {
    f.remoteId.Valid() && 0 <= a < b < |h| && ReqIn(h[a], f) && RepOut(h[b], f)
  }

  // ---- Nothing since the RTU has taken the flow down ----

  predicate DreqNaming(p: Packet, l: u32) {
    p.msg.Dreq? && l == if p.dir.FromHost? then p.msg.localCommId else p.msg.remoteCommId
  }

  predicate DrepNaming(p: Packet, l: u32) {
    p.msg.Drep? && l == if p.dir.FromHost? then p.msg.localCommId else p.msg.remoteCommId
  }

  predicate RejNaming(p: Packet, l: u32) {
    p.dir.FromNet? && p.msg.Rej? && l == p.msg.remoteCommId
  }

  /** The DREQ at `d` is the peer's, and the host sends none between it and `e`. */
  ghost predicate PeerCloses(h: seq<Packet>, l: u32, d: int, e: int) {
    && 0 <= d < e <= |h| && DreqNaming(h[d], l) && h[d].dir.FromNet?
    && forall m :: d < m < e ==> !(DreqNaming(h[m], l) && h[m].dir.FromHost?)
  }

  /** After index `c` no DREP naming `l` follows a DREQ naming it, and every REJ
      received for `l` comes when the peer has the last DREQ, and so is ignored. */
  ghost predicate UpSince(h: seq<Packet>, l: u32, c: int) {
    && (forall d, e :: 0 <= c < d < e < |h| && DreqNaming(h[d], l) ==> !DrepNaming(h[e], l))
    && (forall e :: 0 <= c < e < |h| && RejNaming(h[e], l) ==> exists d :: c < d && PeerCloses(h, l, d, e))
  }

  /** The flow's phase tells which DREQs it has seen since. */
  ghost predicate PhaseSince(h: seq<Packet>, f: Flow, c: int) {
    match f.phase
    case Established => forall d :: 0 <= c < d < |h| ==> !DreqNaming(h[d], f.localId)
    case DreqRcvd => exists d :: c < d && PeerCloses(h, f.localId, d, |h|)
    case _ => true
  }

  ghost predicate StillUp(h: seq<Packet>, f: Flow, c: int) {
    UpSince(h, f.localId, c) && PhaseSince(h, f, c)
  }

  ghost predicate ConnectedActive(h: seq<Packet>, f: Flow, a: int, b: int, c: int) {
    RepliedActive(h, f, a, b) && b < c < |h| && RtuOut(h[c], f) && StillUp(h, f, c)
  }

  ghost predicate ConnectedPassive(h: seq<Packet>, f: Flow, a: int, b: int, c: int) {
    RepliedPassive(h, f, a, b) && b < c < |h| && RtuIn(h[c], f) && StillUp(h, f, c)
  }

  ghost predicate Explained(h: seq<Packet>, f: Flow) {
    match f.phase
    case ReqSent | ReqRcvd => exists a :: Requested(h, f, a)
    case RepRcvd => exists a, b :: RepliedActive(h, f, a, b)
    case RepSent => exists a, b :: RepliedPassive(h, f, a, b)
    case _ => f.inQpnMap ==> Handshaken(h, f)
  }

  ghost predicate Handshaken(h: seq<Packet>, f: Flow) {
    || (exists a, b, c :: ConnectedActive(h, f, a, b, c))
    || (exists a, b, c :: ConnectedPassive(h, f, a, b, c))
  }

  ghost predicate AllExplained(h: seq<Packet>, t: Tracker) {
    forall i :: 0 <= i < |t.flows| ==> Explained(h, t.flows[i])
  }

  /** `g` is `f` with ids filled in. */
  predicate FillsIn(f: Flow, g: Flow) {
    && g == f.(localId := g.localId, remoteId := g.remoteId)
    && (f.localId != 0 ==> g.localId == f.localId)
    && (f.remoteId.Valid() ==> g.remoteId == f.remoteId)
  }

  /** A packet that leaves marked flow `f` up, as `g`: one that does not name it, one
      it ignores, or a DREQ. */
  predicate LeavesUp(p: Packet, f: Flow, g: Flow) {
    && f.inQpnMap && Connected(f.phase)
    && if p.msg.Dreq? && p.LocalId() == f.localId then Decide(p, f) == Update(g)
       else g == f && (p.LocalId() == f.localId ==> Decide(p, f).Ignore?)
  }

  lemma PeerClosesGrows(h: seq<Packet>, p: Packet, l: u32, d: int, e: int)
    requires PeerCloses(h, l, d, e)
    ensures PeerCloses(h + [p], l, d, e)
    ensures e == |h| && !(DreqNaming(p, l) && p.dir.FromHost?) ==> PeerCloses(h + [p], l, d, e + 1)
  { }

  lemma NoDrepAfterDreq(h: seq<Packet>, p: Packet, f: Flow, g: Flow, c: int)
    requires StillUp(h, f, c) && LeavesUp(p, f, g)
    ensures forall d, e :: 0 <= c < d < e < |h + [p]| && DreqNaming((h + [p])[d], f.localId) ==>
      !DrepNaming((h + [p])[e], f.localId)
  {
    forall d, e | 0 <= c < d < e < |h + [p]| && DreqNaming((h + [p])[d], f.localId)
      ensures !DrepNaming((h + [p])[e], f.localId)
    {
      assert DreqNaming(h[d], f.localId);
    }
  }

  lemma RejOnlyWhenPeerCloses(h: seq<Packet>, p: Packet, f: Flow, g: Flow, c: int)
    requires StillUp(h, f, c) && LeavesUp(p, f, g)
    ensures forall e :: 0 <= c < e < |h + [p]| && RejNaming((h + [p])[e], f.localId) ==>
      exists d :: c < d && PeerCloses(h + [p], f.localId, d, e)
  {
    forall e | 0 <= c < e < |h + [p]| && RejNaming((h + [p])[e], f.localId)
      ensures exists d :: c < d && PeerCloses(h + [p], f.localId, d, e)
    {
      if e == |h| {
        assert f.phase.DreqRcvd?;
      } else {
        assert RejNaming(h[e], f.localId);
      }
      var d :| c < d && PeerCloses(h, f.localId, d, e);
      PeerClosesGrows(h, p, f.localId, d, e);
    }
  }

  lemma PhaseFollows(h: seq<Packet>, p: Packet, f: Flow, g: Flow, c: int)
    requires PhaseSince(h, f, c) && LeavesUp(p, f, g) && c < |h|
    ensures PhaseSince(h + [p], g, c)
  {
    if g.phase.DreqRcvd? {
      if DreqNaming(p, f.localId) {
        assert PeerCloses(h + [p], f.localId, |h|, |h| + 1);
      } else {
        var d :| c < d && PeerCloses(h, f.localId, d, |h|);
        PeerClosesGrows(h, p, f.localId, d, |h|);
      }
    }
  }

  lemma StaysUp(h: seq<Packet>, p: Packet, f: Flow, g: Flow, c: int)
    requires StillUp(h, f, c) && LeavesUp(p, f, g) && c < |h|
    ensures StillUp(h + [p], g, c)
  {
    NoDrepAfterDreq(h, p, f, g, c);
    RejOnlyWhenPeerCloses(h, p, f, g, c);
    PhaseFollows(h, p, f, g, c);
  }

  lemma ActiveStands(h: seq<Packet>, p: Packet, f: Flow, g: Flow, a: int, b: int, c: int)
    requires ConnectedActive(h, f, a, b, c) && LeavesUp(p, f, g)
    ensures ConnectedActive(h + [p], g, a, b, c)
  {
    StaysUp(h, p, f, g, c);
  }

  lemma PassiveStands(h: seq<Packet>, p: Packet, f: Flow, g: Flow, a: int, b: int, c: int)
    requires ConnectedPassive(h, f, a, b, c) && LeavesUp(p, f, g)
    ensures ConnectedPassive(h + [p], g, a, b, c)
  {
    StaysUp(h, p, f, g, c);
  }

  lemma HandshakeStands(h: seq<Packet>, p: Packet, f: Flow, g: Flow)
    requires Handshaken(h, f) && LeavesUp(p, f, g)
    ensures Handshaken(h + [p], g)
  {
    if a, b, c :| ConnectedActive(h, f, a, b, c) {
      ActiveStands(h, p, f, g, a, b, c);
    } else {
      var a, b, c :| ConnectedPassive(h, f, a, b, c);
      PassiveStands(h, p, f, g, a, b, c);
    }
  }

  /** Evidence for an unmarked flow lasts: later packets and filled-in ids do not
      spoil it. */
  lemma UnmarkedEvidenceStands(h: seq<Packet>, h': seq<Packet>, f: Flow, g: Flow)
    requires h <= h' && Explained(h, f) && FillsIn(f, g) && !f.inQpnMap
    ensures Explained(h', g)
  {
    match f.phase
    case ReqSent | ReqRcvd =>
      var a :| Requested(h, f, a);
      assert Requested(h', g, a);
    case RepRcvd =>
      var a, b :| RepliedActive(h, f, a, b);
      assert RepliedActive(h', g, a, b);
    case RepSent =>
      var a, b :| RepliedPassive(h, f, a, b);
      assert RepliedPassive(h', g, a, b);
    case _ =>
  }

  /** A flow that a packet leaves alone stays explained. */
  lemma EvidenceStands(h: seq<Packet>, p: Packet, f: Flow)
    requires FlowExact(f) && Explained(h, f) && (f.inQpnMap ==> LeavesUp(p, f, f))
    ensures Explained(h + [p], f)
  {
    if f.inQpnMap {
      HandshakeStands(h, p, f, f);
    } else {
      UnmarkedEvidenceStands(h, h + [p], f, f);
    }
  }

  lemma LookupFillsIn(t: Tracker, l: u32, k: RemoteKey)
    requires Inv(t) && GetFlow(t, l, k).Ok?
    ensures
      var at := GetFlow(t, l, k).value;
      if at.flow < |t.flows| then
        FillsIn(t.flows[at.flow], at.tracker.flows[at.flow]) &&
        (t.flows[at.flow].inQpnMap ==> at.tracker.flows[at.flow] == t.flows[at.flow])
      else at.tracker.flows[at.flow].phase.Idle? && !at.tracker.flows[at.flow].inQpnMap
  { }

  /** Linking records the peer key the packet names, if that is valid. */
  lemma LinkRecordsKey(t: Tracker, i: nat, l: u32, k: RemoteKey)
    requires IdsExact(t) && i < |t.flows| && FoundUnder(t, i, l, k) && AddNewFlow(t, l, k).Ok?
    ensures
      var g := AddNewFlow(t, l, k).value.tracker.flows[i];
      AddNewFlow(t, l, k).value.flow == i && FillsIn(t.flows[i], g) && (k.Valid() ==> g.remoteId == k) &&
      (l != 0 ==> g.localId == l)
  { }

  lemma ReqIsEvidence(h: seq<Packet>, p: Packet, f: Flow)
    requires p.msg.Req? && Decide(p, f).Update?
    requires p.LocalId() != 0 ==> f.localId == p.LocalId()
    requires p.LocalId() == 0 ==> p.PeerKey().Valid() && f.remoteId == p.PeerKey()
    ensures Explained(h + [p], Decide(p, f).flow)
  {
    assert Requested(h + [p], Decide(p, f).flow, |h|);
  }

  lemma RepIsEvidence(h: seq<Packet>, p: Packet, f: Flow, g: Flow)
    requires p.msg.Rep? && Decide(p, f).UpdateAndLink? && Tracked(f.phase) && Explained(h, f)
    requires FillsIn(Decide(p, f).flow, g) && (p.PeerKey().Valid() ==> g.remoteId == p.PeerKey())
    requires p.LocalId() != 0 ==> g.localId == p.LocalId() == f.localId
    requires p.dir.FromNet? ==> p.LocalId() != 0
    ensures Explained(h + [p], g)
  {
    var a :| Requested(h, f, a);
    if p.dir.FromHost? {
      assert RepliedPassive(h + [p], g, a, |h|);
    } else {
      assert RepliedActive(h + [p], g, a, |h|);
    }
  }

  lemma RtuIsEvidence(h: seq<Packet>, p: Packet, f: Flow, g: Flow)
    requires Decide(p, f).Establish? && Tracked(f.phase) && Explained(h, f) && p.LocalId() == f.localId
    requires g == f.(phase := Established, inQpnMap := g.inQpnMap)
    ensures Explained(h + [p], g)
  {
    if f.phase.RepRcvd? {
      var a, b :| RepliedActive(h, f, a, b);
      assert ConnectedActive(h + [p], g, a, b, |h|);
    } else {
      var a, b :| RepliedPassive(h, f, a, b);
      assert ConnectedPassive(h + [p], g, a, b, |h|);
    }
  }

  /** The remaining assignments are those of a DREQ. */
  lemma DreqKeepsEvidence(h: seq<Packet>, p: Packet, f: Flow)
    requires p.msg.Dreq? && Decide(p, f).Update? && FlowExact(f) && Explained(h, f) && p.LocalId() == f.localId
    ensures Explained(h + [p], Decide(p, f).flow)
  {
    if f.inQpnMap {
      HandshakeStands(h, p, f, Decide(p, f).flow);
    }
  }

  lemma UnmarkedStands(h: seq<Packet>, p: Packet, f: Flow)
    requires FlowExact(f) && Explained(h, f)
    ensures Explained(h + [p], f.(inQpnMap := false))
  {
    if !f.inQpnMap {
      UnmarkedEvidenceStands(h, h + [p], f, f);
    }
  }

  lemma AssignmentExplained(h: seq<Packet>, p: Packet, f: Flow)
    requires FlowExact(f) && Explained(h, f) && Decide(p, f).Update?
    requires p.LocalId() != 0 ==> f.localId == p.LocalId()
    requires p.LocalId() == 0 ==> p.PeerKey().Valid() && f.remoteId == p.PeerKey()
    ensures Explained(h + [p], Decide(p, f).flow)
  {
    if p.msg.Req? {
      ReqIsEvidence(h, p, f);
    } else {
      DreqKeepsEvidence(h, p, f);
    }
  }

  /** The flow a handler worked on is explained by the history with its packet. */
  lemma TargetExplained(h: seq<Packet>, t: Tracker, i: nat, p: Packet, a: Action)
    requires IdsExact(t) && i < |t.flows| && FoundUnder(t, i, p.LocalId(), p.PeerKey()) && !p.msg.Other?
    requires p.LocalId() != 0 || p.LookupKey().Valid()
    requires FlowExact(t.flows[i]) && Explained(h, t.flows[i])
    requires a == Decide(p, t.flows[i]) && !a.Erase? && Apply(t, i, p, a).Ok?
    ensures i < |Apply(t, i, p, a).value.flows| && Explained(h + [p], Apply(t, i, p, a).value.flows[i])
  {
    var f := t.flows[i];
    match a
    case Ignore =>
      EvidenceStands(h, p, f);
    case Update(_) =>
      AssignmentExplained(h, p, f);
    case UpdateAndLink(g) =>
      LinkExplained(h, t, i, p);
    case Establish =>
      RtuIsEvidence(h, p, f, Apply(t, i, p, a).value.flows[i]);
  }

  lemma LinkExplained(h: seq<Packet>, t: Tracker, i: nat, p: Packet)
    requires IdsExact(t) && i < |t.flows| && FoundUnder(t, i, p.LocalId(), p.PeerKey())
    requires p.LocalId() != 0 || p.LookupKey().Valid()
    requires FlowExact(t.flows[i]) && Explained(h, t.flows[i]) && Decide(p, t.flows[i]).UpdateAndLink?
    requires Apply(t, i, p, Decide(p, t.flows[i])).Ok?
    ensures
      var u := Apply(t, i, p, Decide(p, t.flows[i])).value;
      i < |u.flows| && Explained(h + [p], u.flows[i])
  {
    var g := Decide(p, t.flows[i]).flow;
    LinkRecordsKey(t.With(i, g), i, p.LocalId(), p.PeerKey());
    RepIsEvidence(h, p, t.flows[i], AddNewFlow(t.With(i, g), p.LocalId(), p.PeerKey()).value.tracker.flows[i]);
  }

  lemma ErasedExplained(h: seq<Packet>, t: Tracker, i: nat, p: Packet)
    requires Inv(t) && i < |t.flows| && FoundUnder(t, i, p.LocalId(), p.PeerKey())
    requires Explained(h, t.flows[i]) && EraseFlow(t, p.LocalId(), p.PeerKey()).Ok?
    ensures Explained(h + [p], EraseFlow(t, p.LocalId(), p.PeerKey()).value.flows[i])
  {
    assert FlowExact(t.flows[i]);
    EraseLeaves(t, i, p.LocalId(), p.PeerKey());
    UnmarkedStands(h, p, t.flows[i]);
  }

  lemma LookupExplained(h: seq<Packet>, t: Tracker, l: u32, k: RemoteKey)
    requires Inv(t) && AllExplained(h, t) && GetFlow(t, l, k).Ok?
    ensures var at := GetFlow(t, l, k).value; Explained(h, at.tracker.flows[at.flow])
  {
    var at := GetFlow(t, l, k).value;
    LookupFillsIn(t, l, k);
    if at.flow < |t.flows| && !t.flows[at.flow].inQpnMap {
      UnmarkedEvidenceStands(h, h, t.flows[at.flow], at.tracker.flows[at.flow]);
    }
  }

  /** The only flow a packet can add is the one it works on. */
  lemma LookupAddsTarget(t: Tracker, l: u32, k: RemoteKey)
    requires IdsExact(t) && GetFlow(t, l, k).Ok?
    ensures var at := GetFlow(t, l, k).value; |at.tracker.flows| <= |t.flows| + 1
    ensures var at := GetFlow(t, l, k).value; |at.tracker.flows| > |t.flows| ==> at.flow == |t.flows|
  { }

  lemma ApplyAddsNothing(t: Tracker, i: nat, p: Packet, a: Action)
    requires t.Closed() && i < |t.flows| && FoundUnder(t, i, p.LocalId(), p.PeerKey()) && Apply(t, i, p, a).Ok?
    ensures |Apply(t, i, p, a).value.flows| == |t.flows|
  { }

  lemma StepExplained(h: seq<Packet>, t: Tracker, p: Packet)
    requires Inv(t) && AllExplained(h, t) && Step(t, p).Ok? && !p.msg.Other?
    ensures AllExplained(h + [p], Step(t, p).value)
  {
    var at := GetFlow(t, p.LocalId(), p.LookupKey()).value;
    var a, u := Decide(p, at.tracker.flows[at.flow]), Step(t, p).value;
    LookupKeepsInv(t, p);
    LookupExplained(h, t, p.LocalId(), p.LookupKey());
    if a.Erase? {
      ErasedExplained(h, at.tracker, at.flow, p);
    } else {
      assert FlowExact(at.tracker.flows[at.flow]);
      TargetExplained(h, at.tracker, at.flow, p, a);
    }
    LookupAddsTarget(t, p.LocalId(), p.LookupKey());
    ApplyAddsNothing(at.tracker, at.flow, p, a);
    StepTouches(t, p);
    OthersExplained(h, t, p, u, at.flow);
  }

  lemma OthersExplained(h: seq<Packet>, t: Tracker, p: Packet, u: Tracker, i: nat)
    requires AllExplained(h, t) && FlowsExact(t) && |t.flows| <= |u.flows|
    requires forall j :: 0 <= j < |t.flows| && j != i ==> u.flows[j] == t.flows[j]
    requires forall j :: Indexed(t, j) && j != i ==> p.LocalId() != t.flows[j].localId
    requires |u.flows| <= |t.flows| + 1 && (|u.flows| > |t.flows| ==> i == |t.flows|)
    requires i < |u.flows| && Explained(h + [p], u.flows[i])
    ensures AllExplained(h + [p], u)
  {
    forall j | 0 <= j < |u.flows|
      ensures Explained(h + [p], u.flows[j])
    {
      if j != i {
        assert t.flows[j].inQpnMap == Indexed(t, j) && FlowExact(t.flows[j]);
        EvidenceStands(h, p, t.flows[j]);
      }
    }
  }

  ghost predicate RunIsExplained(h: seq<Packet>) {
    Run(EMPTY_TRACKER, h).Ok? ==> AllExplained(h, Run(EMPTY_TRACKER, h).value)
  }

  lemma {:induction false} NextExplained(h: seq<Packet>, p: Packet)
    requires RunIsExplained(h)
    ensures RunIsExplained(h + [p])
  {
    if Run(EMPTY_TRACKER, h + [p]).Ok? {
      assert (h + [p])[..|h|] == h;
      RunMore(h, p);
      RunKeepsInv(EMPTY_TRACKER, h);
      AnyStepExplained(h, Run(EMPTY_TRACKER, h).value, p);
    }
  }

  lemma {:induction false} RunExplained(h: seq<Packet>)
    ensures RunIsExplained(h)
  {
    if h != [] {
      var front, p := h[..|h| - 1], h[|h| - 1];
      assert h == front + [p];
      RunExplained(front);
      NextExplained(front, p);
    }
  }

  lemma AnyStepExplained(h: seq<Packet>, t: Tracker, p: Packet)
    requires Inv(t) && AllExplained(h, t) && Step(t, p).Ok?
    ensures AllExplained(h + [p], Step(t, p).value)
  {
    if p.msg.Other? {
      HistoryGrows(h, t, p);
    } else {
      StepExplained(h, t, p);
    }
  }

  lemma HistoryGrows(h: seq<Packet>, t: Tracker, p: Packet)
    requires AllExplained(h, t) && FlowsExact(t) && p.msg.Other?
    ensures AllExplained(h + [p], t)
  {
    forall j | 0 <= j < |t.flows|
      ensures Explained(h + [p], t.flows[j])
    {
      assert FlowExact(t.flows[j]);
      EvidenceStands(h, p, t.flows[j]);
    }
  }

  // ---- The theorems ----

  /** For any packets at all: a nonzero answer belongs to a flow whose handshake
      is in the history, in order, and that has been up ever since. */
  lemma AnswerHasHandshake(h: seq<Packet>, key: FlowKey) returns (f: Flow)
    requires Run(EMPTY_TRACKER, h).Ok? && GetSourceQpn(Run(EMPTY_TRACKER, h).value, key) != 0
    ensures f.Key() == key && f.localQpn == GetSourceQpn(Run(EMPTY_TRACKER, h).value, key) && Handshaken(h, f)
    ensures f.localId != 0
  {
    var t := Run(EMPTY_TRACKER, h).value;
    RunKeepsInv(EMPTY_TRACKER, h);
    RunExplained(h);
    var i :| Owns(t, i, key);
    f := t.flows[i];
    assert Explained(h, f) && FlowExact(f);
  }

  /** A host REQ(l, q), a REP from `ip` naming `l` with QPN `d`, a host RTU(l). */
  predicate ActiveHandshake(x: Packet, y: Packet, z: Packet, l: u32, q: u32, ip: u32, d: u32) {
    && x.dir.FromHost? && x.msg == Req(l, q)
    && y.dir.FromNet? && y.saddr == ip && y.msg.Rep? && y.msg.remoteCommId == l && y.msg.localQpn == d
    && z.dir.FromHost? && z.msg.Rtu? && z.msg.localCommId == l
  }

  /** A REQ(r, d) from `ip`, a host REP(l, q) to (ip, r), an RTU naming `l`. */
  predicate PassiveHandshake(x: Packet, y: Packet, z: Packet, l: u32, q: u32, ip: u32, r: u32, d: u32) {
    && x.dir.FromNet? && x.saddr == ip && x.msg == Req(r, d)
    && y.dir.FromHost? && y.daddr == ip && y.msg == Rep(l, r, q)
    && z.dir.FromNet? && z.msg.Rtu? && z.msg.remoteCommId == l
  }

  /** Ids and addresses are nonzero, as the protocol has them. */
  predicate Numbered(p: Packet) {
    && p.saddr != 0 && p.daddr != 0
    && (!p.msg.Other? ==> p.msg.localCommId != 0)
    && (!p.msg.Other? && !p.msg.Req? ==> p.msg.remoteCommId != 0)
  }

  /** With nonzero ids and addresses the handshake is fully determined: the
      answer `q` for (ip, d) comes from an active or a passive handshake between
      local QPN `q` and QPN `d` at `ip`, and nothing after its RTU has torn that
      connection down. */
  lemma {:induction false} AnswerHasProvenance(h: seq<Packet>, ip: u32, d: u32)
    requires Run(EMPTY_TRACKER, h).Ok? && forall i :: 0 <= i < |h| ==> Numbered(h[i])
    ensures
      var q := GetSourceQpn(Run(EMPTY_TRACKER, h).value, FlowKey(ip, d));
      q != 0 ==>
        || (exists a, b, c, l :: 0 <= a < b < c < |h| &&
              ActiveHandshake(h[a], h[b], h[c], l, q, ip, d) && UpSince(h, l, c))
        || (exists a, b, c, l, r :: 0 <= a < b < c < |h| &&
              PassiveHandshake(h[a], h[b], h[c], l, q, ip, r, d) && UpSince(h, l, c))
  {
    var q := GetSourceQpn(Run(EMPTY_TRACKER, h).value, FlowKey(ip, d));
    if q != 0 {
      var f := AnswerHasHandshake(h, FlowKey(ip, d));
      if a, b, c :| ConnectedActive(h, f, a, b, c) {
        assert Numbered(h[b]);
        assert ActiveHandshake(h[a], h[b], h[c], f.localId, q, ip, d);
      } else {
        var a, b, c :| ConnectedPassive(h, f, a, b, c);
        assert Numbered(h[a]) && Numbered(h[b]);
        assert PassiveHandshake(h[a], h[b], h[c], f.localId, q, ip, f.remoteId.id, d);
      }
    }
  }
}
