/** A packet seen twice in a row. */
module Retransmission {
  import opened CmTypes
  import opened TrackerModel
  import opened TrackerInvariant
  import opened Asserts

  /** Seen again, the message finds nothing left to assign. */
  lemma DecideTwice(p: Packet, f: Flow)
    requires FlowExact(f)
    ensures
      match Decide(p, f)
      case Update(g) => Decide(p, g) in {Ignore, Update(g)}
      case UpdateAndLink(g) => forall l, k :: Decide(p, g.(localId := l, remoteId := k)) == Ignore
      case Establish => forall b :: Decide(p, f.(phase := Established, inQpnMap := b)) == Ignore
      case _ => true
  { }

  /** Only erasing takes the flow out from under the id it was found by. */
  lemma StaysFound(t: Tracker, i: nat, p: Packet, a: Action)
    requires t.Closed() && i < |t.flows| && FoundUnder(t, i, p.LocalId(), p.PeerKey())
    requires !a.Erase? && Apply(t, i, p, a).Ok?
    ensures FoundUnder(Apply(t, i, p, a).value, i, p.LocalId(), p.PeerKey())
    ensures i < |Apply(t, i, p, a).value.flows|
  { }

  /** The flow after a handler that linked it or established it. */
  lemma FlowAfter(t: Tracker, i: nat, p: Packet, a: Action)
    requires t.Closed() && i < |t.flows| && FoundUnder(t, i, p.LocalId(), p.PeerKey())
    requires Apply(t, i, p, a).Ok? && i < |Apply(t, i, p, a).value.flows|
    ensures
      var g := Apply(t, i, p, a).value.flows[i];
      match a
      case UpdateAndLink(f) => g == f.(localId := g.localId, remoteId := g.remoteId)
      case Establish => g == t.flows[i].(phase := Established, inQpnMap := g.inQpnMap)
      case _ => true
  { }

  lemma RepeatWithoutErase(t: Tracker, p: Packet)
    requires Inv(t) && Step(t, p).Ok? && !p.msg.Other?
    requires
      var at := GetFlow(t, p.LocalId(), p.LookupKey()).value;
      !Decide(p, at.tracker.flows[at.flow]).Erase?
    ensures Step(Step(t, p).value, p) == Step(t, p)
  {
    var at := GetFlow(t, p.LocalId(), p.LookupKey()).value;
    var f, u := at.tracker.flows[at.flow], Step(t, p).value;
    LookupKeepsInv(t, p);
    StepKeepsInv(t, p);
    assert FlowExact(f);
    var a := Decide(p, f);
    StaysFound(at.tracker, at.flow, p, a);
    SecondDecision(at.tracker, at.flow, p, a);
    NothingLeftToDo(u, at.flow, p);
  }

  lemma NothingLeftToDo(u: Tracker, i: nat, p: Packet)
    requires IdsExact(u) && i < |u.flows| && FoundUnder(u, i, p.LocalId(), p.PeerKey()) && !p.msg.Other?
    requires p.LocalId() != 0 || p.LookupKey().Valid()
    requires Decide(p, u.flows[i]) in {Ignore, Update(u.flows[i])}
    ensures Step(u, p) == Ok(u)
  {
    LookupAgain(u, i, p);
    assert u.With(i, u.flows[i]) == u;
  }

  lemma SecondDecision(t: Tracker, i: nat, p: Packet, a: Action)
    requires t.Closed() && i < |t.flows| && FoundUnder(t, i, p.LocalId(), p.PeerKey())
    requires FlowExact(t.flows[i]) && a == Decide(p, t.flows[i]) && !a.Erase? && Apply(t, i, p, a).Ok?
    requires i < |Apply(t, i, p, a).value.flows|
    ensures var g := Apply(t, i, p, a).value.flows[i]; Decide(p, g) in {Ignore, Update(g)}
  {
    DecideTwice(p, t.flows[i]);
    FlowAfter(t, i, p, a);
  }

  /** After an erase neither named id is entered. */
  lemma ErasedIsGone(t: Tracker, p: Packet)
    requires Inv(t) && Step(t, p).Ok? && !p.msg.Other?
    requires
      var at := GetFlow(t, p.LocalId(), p.LookupKey()).value;
      Decide(p, at.tracker.flows[at.flow]).Erase?
    ensures p.LocalId() !in Step(t, p).value.localMap && p.PeerKey() !in Step(t, p).value.remoteMap
  {
    EraseMeetsItsFlow(t, p);
  }

  /** The same maps, and the same flows up to garbage. */
  ghost predicate SameButGarbage(u: Tracker, v: Tracker) {
    v.localMap == u.localMap && v.remoteMap == u.remoteMap && v.qpnMap == u.qpnMap && u.flows <= v.flows
  }

  lemma RejUnknown(u: Tracker, p: Packet)
    requires u.Closed() && p.msg.Rej? && (p.LocalId() != 0 || p.PeerKey().Valid())
    requires p.LocalId() !in u.localMap && p.PeerKey() !in u.remoteMap
    ensures Step(u, p).Ok? && SameButGarbage(u, Step(u, p).value)
  {
    var l, k := p.LocalId(), p.PeerKey();
    LookupUnknown(u, l, k);
    AddThenRemove(u.localMap, l, |u.flows|);
    AddThenRemove(u.remoteMap, k, |u.flows|);
    var v := GetFlow(u, l, k).value.tracker;
    EraseNewFlow(v, |u.flows|, l, k);
    assert Step(u, p) == EraseFlow(v, l, k);
  }

  lemma AddThenRemove<K, V>(m: map<K, V>, x: K, v: V)
    requires x !in m
    ensures m - {x} == m && m[x := v] - {x} == m
  { }

  lemma EraseNewFlow(t: Tracker, i: nat, l: u32, k: RemoteKey)
    requires t.Closed() && i < |t.flows| && FoundUnder(t, i, l, k) && !t.flows[i].inQpnMap && (l != 0 || k.Valid())
    ensures EraseFlow(t, l, k) == Ok(t.(localMap := t.localMap - {l}, remoteMap := t.remoteMap - {k}))
  { }

  /** REQ, REP, RTU and DREQ: the second copy changes nothing at all. */
  lemma RepeatedMessageIsIgnored(t: Tracker, p: Packet)
    requires Inv(t) && Step(t, p).Ok? && !p.msg.Rej? && !p.msg.Drep?
    ensures Step(Step(t, p).value, p) == Step(t, p)
  {
    if !p.msg.Other? {
      var at := GetFlow(t, p.LocalId(), p.LookupKey()).value;
      LookupKeepsInv(t, p);
      FoundDecision(at.tracker, at.flow, p);
      RepeatWithoutErase(t, p);
    }
  }

  /** REJ: the second copy makes a flow and erases it again. */
  lemma RepeatedRejLeavesGarbage(t: Tracker, p: Packet)
    requires Inv(t) && Step(t, p).Ok? && p.msg.Rej?
    ensures Step(Step(t, p).value, p).Ok? && SameButGarbage(Step(t, p).value, Step(Step(t, p).value, p).value)
  {
    var at := GetFlow(t, p.LocalId(), p.LookupKey()).value;
    if Decide(p, at.tracker.flows[at.flow]).Erase? {
      ErasedIsGone(t, p);
      RejUnknown(Step(t, p).value, p);
    } else {
      RepeatWithoutErase(t, p);
    }
  }

  /** A DREP whose local id is unknown makes an idle flow. */
  lemma DrepUnknown(u: Tracker, p: Packet)
    requires IdsExact(u) && p.msg.Drep? && p.LocalId() != 0 && p.LocalId() !in u.localMap
    ensures
      var l := p.LocalId();
      Step(u, p) == Ok(u.(flows := u.flows + [NEW_FLOW.(localId := l)], localMap := u.localMap[l := |u.flows|]))
  {
    LookupUnknown(u, p.LocalId(), NO_KEY);
  }

  /** DREP: the second copy is not a no-op, but all it does is to leave an idle
      flow behind under its local id. */
  lemma RepeatedDrepAddsIdleFlow(t: Tracker, p: Packet)
    requires Inv(t) && Step(t, p).Ok? && p.msg.Drep?
    ensures
      var u, l := Step(t, p).value, p.LocalId();
      || Step(u, p) == Ok(u)
      || (l !in u.localMap &&
          Step(u, p) == Ok(u.(flows := u.flows + [NEW_FLOW.(localId := l)], localMap := u.localMap[l := |u.flows|])))
  {
    var at := GetFlow(t, p.LocalId(), p.LookupKey()).value;
    var u := Step(t, p).value;
    if Decide(p, at.tracker.flows[at.flow]).Erase? {
      ErasedIsGone(t, p);
      StepKeepsInv(t, p);
      DrepUnknown(u, p);
    } else {
      RepeatWithoutErase(t, p);
    }
  }

  /** It is a no-op exactly when the first copy found no disconnecting flow. */
  lemma RepeatedDrepExactly(t: Tracker, p: Packet)
    requires Inv(t) && Step(t, p).Ok? && p.msg.Drep?
    ensures
      Step(Step(t, p).value, p) == Step(t, p) <==>
      !(p.LocalId() in t.localMap &&
        (t.flows[t.localMap[p.LocalId()]].phase.DreqSent? || t.flows[t.localMap[p.LocalId()]].phase.DreqRcvd?))
  {
    var l := p.LocalId();
    var at := GetFlow(t, l, NO_KEY).value;
    LookupFlow(t, l, NO_KEY);
    if Decide(p, at.tracker.flows[at.flow]).Erase? {
      var u := Step(t, p).value;
      ErasedIsGone(t, p);
      StepKeepsInv(t, p);
      DrepUnknown(u, p);
    } else {
      RepeatWithoutErase(t, p);
    }
  }
}
