/** Two trackers, one at each end of a network that may delay, drop, reorder and
    duplicate connection messages without bound. */
module TwoEnds {
  import opened CmTypes
  import opened TrackerModel
  import opened TrackerInvariant
  import opened Session

  datatype End = Left | Right {
    function Other(): End {
      if Left? then Right else Left
    }
  }

  /** One connection: the end that asks for it, and the two ids and QPNs. */
  datatype Plan = Plan(asker: End, askerId: u32, askerQpn: u32, answererId: u32, answererQpn: u32) {
    function IdAt(e: End): u32 {
      if e == asker then askerId else answererId
    }

    function QpnAt(e: End): u32 {
      if e == asker then askerQpn else answererQpn
    }
  }

  datatype Network = Network(leftIp: u32, rightIp: u32, plans: set<Plan>) {
    function Ip(e: End): u32 {
      if e.Left? then leftIp else rightIp
    }

    /** At each end, the connections have ids and QPNs of their own, none zero. */
    ghost predicate Proper() {
      && leftIp != 0 && rightIp != 0
      && (forall c, e: End :: c in plans ==> c.IdAt(e) != 0 && c.QpnAt(e) != 0)
      && (forall c, c', e: End :: c in plans && c' in plans && c != c' ==>
            c.IdAt(e) != c'.IdAt(e) && c.QpnAt(e) != c'.QpnAt(e))
    }

    /** The connection as end `e` sees it. */
    function View(c: Plan, e: End): Session {
      Session(if e == c.asker then Active else Passive,
              c.IdAt(e), c.QpnAt(e), Ip(e.Other()), c.IdAt(e.Other()), c.QpnAt(e.Other()))
    }
  }

  datatype Kind = ReqKind | RepKind | RtuKind

  /** A message of connection `plan` on the wire. */
  datatype Wire = Wire(plan: Plan, kind: Kind) {
    function Sender(): End {
      if kind.RepKind? then plan.asker.Other() else plan.asker
    }

    function Content(): Message {
      match kind
      case ReqKind => Req(plan.askerId, plan.askerQpn)
      case RepKind => Rep(plan.answererId, plan.askerId, plan.answererQpn)
      case RtuKind => Rtu(plan.askerId, plan.answererId)
    }
  }

  /** Both trackers, every message ever sent, and every message that arrived at
      least once. A sent message may arrive any number of times, or never. */
  datatype System = System(left: Tracker, right: Tracker, sent: set<Wire>, arrived: set<Wire>) {
    function At(e: End): Tracker {
      if e.Left? then left else right
    }

    function Put(e: End, t: Tracker): System {
      if e.Left? then this.(left := t) else this.(right := t)
    }
  }

  datatype Event = Send(wire: Wire) | Arrive(wire: Wire)

  /** A host answers only what reached it; the network delivers only what was sent. */
  predicate Enabled(n: Network, y: System, ev: Event) {
    && ev.wire.plan in n.plans
    && match ev
       case Send(w) =>
         (match w.kind
          case ReqKind => true
          case RepKind => Wire(w.plan, ReqKind) in y.arrived
          case RtuKind => Wire(w.plan, RepKind) in y.arrived)
       case Arrive(w) => w in y.sent
  }

  /** The end whose tracker sees the event, and the packet it sees. */
  function Site(ev: Event): End {
    if ev.Send? then ev.wire.Sender() else ev.wire.Sender().Other()
  }

  function Seen(n: Network, ev: Event): Packet {
    var e := ev.wire.Sender();
    Packet(if ev.Send? then FromHost else FromNet, n.Ip(e), n.Ip(e.Other()), ev.wire.Content())
  }

  function Happen(n: Network, y: System, ev: Event): Outcome<System>
    requires y.left.Closed() && y.right.Closed()
  {
    var u :- Step(y.At(Site(ev)), Seen(n, ev));
    Ok(After(y, ev, u))
  }

  /** The system after an event that leaves tracker `u` at its site. */
  function After(y: System, ev: Event, u: Tracker): System {
    var z := y.Put(Site(ev), u);
    if ev.Send? then z.(sent := z.sent + {ev.wire}) else z.(arrived := z.arrived + {ev.wire})
  }

  const START := System(EMPTY_TRACKER, EMPTY_TRACKER, {}, {})

  // ---- The invariant ----

  predicate SentBy(y: System, c: Plan, k: Kind) { Wire(c, k) in y.sent }
  predicate ArrivedAt(y: System, c: Plan, k: Kind) { Wire(c, k) in y.arrived }

  /** How far end `e` is with connection `c`, from what it sent and received. */
  function StageOf(y: System, c: Plan, e: End): Stage {
    if e == c.asker then
      if SentBy(y, c, RtuKind) then Open
      else if ArrivedAt(y, c, RepKind) then Replied
      else if SentBy(y, c, ReqKind) then Requested
      else Absent
    else
      if ArrivedAt(y, c, RtuKind) then Open
      else if SentBy(y, c, RepKind) then Replied
      else if ArrivedAt(y, c, ReqKind) then Requested
      else Absent
  }

  /** Each message was preceded by the one it answers. */
  ghost predicate Causal(y: System) {
    && y.arrived <= y.sent
    && (forall c :: SentBy(y, c, RepKind) ==> ArrivedAt(y, c, ReqKind))
    && (forall c :: SentBy(y, c, RtuKind) ==> ArrivedAt(y, c, RepKind))
  }

  /** End `e`'s tracker follows every connection. */
  ghost predicate FollowsPlans(n: Network, y: System, e: End)
    requires y.At(e).Closed()
  {
    forall c :: c in n.plans ==> InStage(y.At(e), n.View(c, e), StageOf(y, c, e))
  }

  /** End `e`'s query table holds nothing but open connections. */
  ghost predicate TableOpen(n: Network, y: System, e: End) {
    forall key :: key in y.At(e).qpnMap ==> exists c :: OpenPlan(n, y, e, c, key)
  }

  ghost predicate Follows(n: Network, y: System, e: End) {
    Inv(y.At(e)) && FollowsPlans(n, y, e) && TableOpen(n, y, e)
  }

  predicate OpenPlan(n: Network, y: System, e: End, c: Plan, key: FlowKey) {
    c in n.plans && StageOf(y, c, e).Open? && n.View(c, e).Key() == key
  }

  ghost predicate SystemInv(n: Network, y: System) {
    Causal(y) && Follows(n, y, Left) && Follows(n, y, Right)
  }

  /** At its site an enabled event is an expected packet of its own connection. */
  lemma EventIsOwnPacket(n: Network, y: System, ev: Event)
    requires n.Proper() && Causal(y) && Enabled(n, y, ev)
    ensures
      var s := n.View(ev.wire.plan, Site(ev));
      Next(s, StageOf(y, ev.wire.plan, Site(ev)), Seen(n, ev)).Some?
  {
    var c := ev.wire.plan;
    if ev.Arrive? && ev.wire.kind.RepKind? {
      assert SentBy(y, c, RepKind);
    } else if ev.Arrive? && ev.wire.kind.RtuKind? {
      assert SentBy(y, c, RtuKind);
    }
    if SentBy(y, c, RtuKind) {
      assert Wire(c, RepKind) in y.sent;
    }
    if SentBy(y, c, RepKind) {
      assert Wire(c, ReqKind) in y.sent;
    }
  }

  /** The messages sent and arrived after the event. */
  predicate Recorded(y: System, ev: Event, z: System) {
    && z.sent == (if ev.Send? then y.sent + {ev.wire} else y.sent)
    && z.arrived == (if ev.Send? then y.arrived else y.arrived + {ev.wire})
  }

  lemma EventAdvancesStage(n: Network, y: System, ev: Event, z: System)
    requires n.Proper() && Causal(y) && Enabled(n, y, ev) && Recorded(y, ev, z)
    ensures
      var c, e := ev.wire.plan, Site(ev);
      Next(n.View(c, e), StageOf(y, c, e), Seen(n, ev)) == Some(StageOf(z, c, e))
  {
    EventIsOwnPacket(n, y, ev);
  }

  lemma OtherStagesStay(y: System, ev: Event, z: System, c: Plan, e: End)
    requires Recorded(y, ev, z) && (c != ev.wire.plan || e != Site(ev))
    ensures StageOf(z, c, e) == StageOf(y, c, e)
  { }

  lemma EventKeepsCausal(n: Network, y: System, ev: Event, z: System)
    requires Causal(y) && Enabled(n, y, ev) && Recorded(y, ev, z)
    ensures Causal(z)
  {
    forall c | SentBy(z, c, RepKind)
      ensures ArrivedAt(z, c, ReqKind)
    {
      assert SentBy(y, c, RepKind) || ev == Send(Wire(c, RepKind));
      assert ArrivedAt(y, c, ReqKind);
    }
    forall c | SentBy(z, c, RtuKind)
      ensures ArrivedAt(z, c, RepKind)
    {
      assert SentBy(y, c, RtuKind) || ev == Send(Wire(c, RtuKind));
      assert ArrivedAt(y, c, RepKind);
    }
  }

  /** For the other connections it is a foreign packet. */
  lemma EventIsForeign(n: Network, ev: Event, c: Plan)
    requires n.Proper() && ev.wire.plan in n.plans && c in n.plans && c != ev.wire.plan
    ensures Foreign(Seen(n, ev), n.View(c, Site(ev)))
  { }

  /** The key of a connection that is not open is free. */
  lemma KeyIsFree(n: Network, y: System, e: End, c: Plan)
    requires n.Proper() && TableOpen(n, y, e) && c in n.plans && !StageOf(y, c, e).Open?
    ensures n.View(c, e).Key() !in y.At(e).qpnMap
  { }

  lemma SessionIsProper(n: Network, c: Plan, e: End)
    requires n.Proper() && c in n.plans
    ensures n.View(c, e).Proper()
  { }

  /** The event's own connection moves on at its site, without an abort. `z` has
      the messages sent and arrived after the event. */
  lemma SiteStep(n: Network, y: System, ev: Event, z: System) returns (u: Tracker)
    requires n.Proper() && Causal(y) && Follows(n, y, Site(ev)) && Enabled(n, y, ev) && Recorded(y, ev, z)
    ensures Step(y.At(Site(ev)), Seen(n, ev)) == Ok(u) && u.Closed()
    ensures InStage(u, n.View(ev.wire.plan, Site(ev)), StageOf(z, ev.wire.plan, Site(ev)))
    ensures
      var key, e := n.View(ev.wire.plan, Site(ev)).Key(), Site(ev);
      && u.qpnMap - {key} == y.At(e).qpnMap - {key}
      && (key in u.qpnMap ==> key in y.At(e).qpnMap || StageOf(z, ev.wire.plan, e).Open?)
  {
    var c, e := ev.wire.plan, Site(ev);
    SessionIsProper(n, c, e);
    EventAdvancesStage(n, y, ev, z);
    if !StageOf(y, c, e).Open? {
      KeyIsFree(n, y, e, c);
    }
    OwnPacketAdvances(y.At(e), n.View(c, e), StageOf(y, c, e), Seen(n, ev));
    u := Step(y.At(e), Seen(n, ev)).value;
  }

  /** The other connections stay where they are. */
  lemma SiteFollowsPlans(n: Network, y: System, ev: Event, z: System)
    requires n.Proper() && Inv(y.At(Site(ev))) && FollowsPlans(n, y, Site(ev)) && Recorded(y, ev, z)
    requires ev.wire.plan in n.plans && z.At(Site(ev)).Closed()
    requires Step(y.At(Site(ev)), Seen(n, ev)) == Ok(z.At(Site(ev)))
    requires InStage(z.At(Site(ev)), n.View(ev.wire.plan, Site(ev)), StageOf(z, ev.wire.plan, Site(ev)))
    ensures FollowsPlans(n, z, Site(ev))
  {
    var e := Site(ev);
    forall c | c in n.plans
      ensures InStage(z.At(e), n.View(c, e), StageOf(z, c, e))
    {
      if c != ev.wire.plan {
        SessionIsProper(n, c, e);
        EventIsForeign(n, ev, c);
        OtherStagesStay(y, ev, z, c, e);
        ForeignKeepsStage(y.At(e), n.View(c, e), StageOf(y, c, e), Seen(n, ev));
      }
    }
  }

  lemma SiteTableOpen(n: Network, y: System, ev: Event, z: System)
    requires TableOpen(n, y, Site(ev)) && ev.wire.plan in n.plans && Recorded(y, ev, z)
    requires
      var key, e := n.View(ev.wire.plan, Site(ev)).Key(), Site(ev);
      && z.At(e).qpnMap - {key} == y.At(e).qpnMap - {key}
      && (key in z.At(e).qpnMap ==> key in y.At(e).qpnMap || StageOf(z, ev.wire.plan, e).Open?)
    ensures TableOpen(n, z, Site(ev))
  {
    var e, c0 := Site(ev), ev.wire.plan;
    var own := n.View(c0, e).Key();
    forall key | key in z.At(e).qpnMap
      ensures exists c :: OpenPlan(n, z, e, c, key)
    {
      if key in y.At(e).qpnMap {
        var c :| OpenPlan(n, y, e, c, key);
        assert OpenPlan(n, z, e, c, key);
      } else {
        assert key != own ==> key in z.At(e).qpnMap - {own};
        assert OpenPlan(n, z, e, c0, key);
      }
    }
  }

  lemma SiteStepsTo(n: Network, y: System, ev: Event) returns (z: System)
    requires n.Proper() && Causal(y) && Follows(n, y, Site(ev)) && Enabled(n, y, ev)
    ensures Recorded(y, ev, z) && z.At(Site(ev)).Closed() && z == After(y, ev, z.At(Site(ev)))
    ensures Step(y.At(Site(ev)), Seen(n, ev)) == Ok(z.At(Site(ev)))
    ensures InStage(z.At(Site(ev)), n.View(ev.wire.plan, Site(ev)), StageOf(z, ev.wire.plan, Site(ev)))
    ensures
      var key, e := n.View(ev.wire.plan, Site(ev)).Key(), Site(ev);
      && z.At(e).qpnMap - {key} == y.At(e).qpnMap - {key}
      && (key in z.At(e).qpnMap ==> key in y.At(e).qpnMap || StageOf(z, ev.wire.plan, e).Open?)
  {
    var x := After(y, ev, y.At(Site(ev)));
    var u := SiteStep(n, y, ev, x);
    z := After(y, ev, u);
    SameMessagesSameStage(x, z, ev.wire.plan, Site(ev));
  }

  lemma SameMessagesSameStage(x: System, z: System, c: Plan, e: End)
    requires x.sent == z.sent && x.arrived == z.arrived
    ensures StageOf(x, c, e) == StageOf(z, c, e)
  { }

  lemma SiteFollows(n: Network, y: System, ev: Event) returns (z: System)
    requires n.Proper() && Causal(y) && Follows(n, y, Site(ev)) && Enabled(n, y, ev)
    requires y.left.Closed() && y.right.Closed()
    ensures Happen(n, y, ev) == Ok(z) && Follows(n, z, Site(ev))
  {
    z := SiteStepsTo(n, y, ev);
    SiteFollowsPlans(n, y, ev, z);
    SiteTableOpen(n, y, ev, z);
    StepKeepsInv(y.At(Site(ev)), Seen(n, ev));
  }

  lemma OtherEndFollows(n: Network, y: System, ev: Event, z: System, e: End)
    requires Follows(n, y, e) && Recorded(y, ev, z) && e != Site(ev) && z.At(e) == y.At(e)
    ensures Follows(n, z, e)
  {
    forall c | c in n.plans
      ensures InStage(z.At(e), n.View(c, e), StageOf(z, c, e))
    {
      OtherStagesStay(y, ev, z, c, e);
    }
    forall key | key in z.At(e).qpnMap
      ensures exists c :: OpenPlan(n, z, e, c, key)
    {
      var c :| OpenPlan(n, y, e, c, key);
      OtherStagesStay(y, ev, z, c, e);
      assert OpenPlan(n, z, e, c, key);
    }
  }

  lemma HappenRecords(n: Network, y: System, ev: Event)
    requires y.left.Closed() && y.right.Closed() && Happen(n, y, ev).Ok?
    ensures var z, e := Happen(n, y, ev).value, Site(ev).Other(); Recorded(y, ev, z) && z.At(e) == y.At(e)
  { }

  lemma BothFollow(n: Network, z: System, e: End)
    requires Causal(z) && Follows(n, z, e) && Follows(n, z, e.Other())
    ensures SystemInv(n, z)
  { }

  /** No event aborts either tracker, and every event keeps the invariant. */
  lemma EventKeepsInv(n: Network, y: System, ev: Event)
    requires n.Proper() && SystemInv(n, y) && Enabled(n, y, ev)
    ensures Happen(n, y, ev).Ok? && SystemInv(n, Happen(n, y, ev).value)
  {
    var z := SiteFollows(n, y, ev);
    HappenRecords(n, y, ev);
    EventKeepsCausal(n, y, ev, z);
    OtherEndFollows(n, y, ev, z, Site(ev).Other());
    BothFollow(n, z, Site(ev));
  }

  /** The state after these events from the start, if each was enabled. */
  ghost function Play(n: Network, evs: seq<Event>): Option<System> {
    if evs == [] then Some(START)
    else
      match Play(n, evs[..|evs| - 1])
      case None => None
      case Some(x) =>
        var ev := evs[|evs| - 1];
        if x.left.Closed() && x.right.Closed() && Enabled(n, x, ev) && Happen(n, x, ev).Ok?
        then Some(Happen(n, x, ev).value) else None
  }

  lemma {:induction false} PlayHasInv(n: Network, evs: seq<Event>)
    requires n.Proper() && Play(n, evs).Some?
    ensures SystemInv(n, Play(n, evs).value)
  {
    if evs == [] {
      assert Inv(EMPTY_TRACKER);
    } else {
      PlayHasInv(n, evs[..|evs| - 1]);
      EventKeepsInv(n, Play(n, evs[..|evs| - 1]).value, evs[|evs| - 1]);
    }
  }

  // ---- The theorems ----

  /** Whatever the network does, no enabled event ever aborts a tracker: every play
      goes on with it. */
  lemma {:induction false} HandshakesNeverAbort(n: Network, evs: seq<Event>, ev: Event)
    requires n.Proper() && Play(n, evs).Some? && Enabled(n, Play(n, evs).value, ev)
    ensures
      var y := Play(n, evs).value;
      && y.left.Closed() && y.right.Closed() && Happen(n, y, ev).Ok?
      && Play(n, evs + [ev]) == Some(Happen(n, y, ev).value)
  {
    var y := Play(n, evs).value;
    PlayHasInv(n, evs);
    EventKeepsInv(n, y, ev);
    assert (evs + [ev])[..|evs|] == evs;
  }

  /** An end's answer for a connection: its own QPN once it is open, else 0. */
  lemma AnswerFollowsStage(n: Network, y: System, c: Plan, e: End)
    requires n.Proper() && Follows(n, y, e) && c in n.plans
    ensures
      GetSourceQpn(y.At(e), FlowKey(n.Ip(e.Other()), c.QpnAt(e.Other()))) ==
      if StageOf(y, c, e).Open? then c.QpnAt(e) else 0
  { }

  /** An end that was asked is open only after the asker is. */
  lemma AskerOpensFirst(n: Network, y: System, c: Plan)
    requires Causal(y)
    ensures StageOf(y, c, c.asker.Other()).Open? ==> StageOf(y, c, c.asker).Open?
    ensures StageOf(y, c, c.asker.Other()).Open? <==> Wire(c, RtuKind) in y.arrived
  { }

  lemma AnswersMirrorFor(n: Network, y: System, c: Plan, e: End)
    requires n.Proper() && SystemInv(n, y) && c in n.plans && StageOf(y, c, e).Open?
    ensures GetSourceQpn(y.At(e), FlowKey(n.Ip(e.Other()), c.QpnAt(e.Other()))) == c.QpnAt(e) != 0
    ensures
      GetSourceQpn(y.At(e.Other()), FlowKey(n.Ip(e), c.QpnAt(e))) ==
      (if e != c.asker || Wire(c, RtuKind) in y.arrived then c.QpnAt(e.Other()) else 0)
  {
    AnswerFollowsStage(n, y, c, e);
    AnswerFollowsStage(n, y, c, e.Other());
    AskerOpensFirst(n, y, c);
    assert c.QpnAt(e) != 0;
  }

  /** The entries mirror each other. If end `e` answers `q` for QPN `d` at the
      other end, then `d` and `q` belong to one connection, and the other end
      answers `d` for `q` if `e` is the end that was asked or the RTU has arrived,
      and nothing otherwise. */
  lemma AnswersMirror(n: Network, evs: seq<Event>, e: End, d: u32) returns (c: Plan)
    requires n.Proper() && Play(n, evs).Some?
    requires GetSourceQpn(Play(n, evs).value.At(e), FlowKey(n.Ip(e.Other()), d)) != 0
    ensures
      var y := Play(n, evs).value;
      && c in n.plans && c.QpnAt(e.Other()) == d
      && GetSourceQpn(y.At(e), FlowKey(n.Ip(e.Other()), d)) == c.QpnAt(e)
      && GetSourceQpn(y.At(e.Other()), FlowKey(n.Ip(e), c.QpnAt(e))) ==
         (if e != c.asker || Wire(c, RtuKind) in y.arrived then d else 0)
  {
    var y := Play(n, evs).value;
    PlayHasInv(n, evs);
    c := Owner(n, y, e, d);
    AnswersMirrorFor(n, y, c, e);
  }

  lemma Owner(n: Network, y: System, e: End, d: u32) returns (c: Plan)
    requires TableOpen(n, y, e) && GetSourceQpn(y.At(e), FlowKey(n.Ip(e.Other()), d)) != 0
    ensures OpenPlan(n, y, e, c, FlowKey(n.Ip(e.Other()), d))
  {
    c :| OpenPlan(n, y, e, c, FlowKey(n.Ip(e.Other()), d));
  }

  // ---- A handshake that nothing mangles ----

  lemma {:induction false} PlayMore(n: Network, evs: seq<Event>, ev: Event)
    requires n.Proper() && Play(n, evs).Some? && Enabled(n, Play(n, evs).value, ev)
    ensures Play(n, evs + [ev]).Some? && Recorded(Play(n, evs).value, ev, Play(n, evs + [ev]).value)
  {
    HandshakesNeverAbort(n, evs, ev);
    HappenRecords(n, Play(n, evs).value, ev);
  }

  /** The three messages of connection `c`, sent and arriving one by one, up to the
      sent RTU. */
  function UpToRtu(c: Plan): seq<Event> {
    [Send(Wire(c, ReqKind))] + [Arrive(Wire(c, ReqKind))] + [Send(Wire(c, RepKind))] + [Arrive(Wire(c, RepKind))] +
    [Send(Wire(c, RtuKind))]
  }

  lemma {:induction false} UpToRtuPlays(n: Network, c: Plan)
    requires n.Proper() && c in n.plans
    ensures Play(n, UpToRtu(c)).Some?
    ensures Play(n, UpToRtu(c)).value.sent == {Wire(c, ReqKind), Wire(c, RepKind), Wire(c, RtuKind)}
    ensures Play(n, UpToRtu(c)).value.arrived == {Wire(c, ReqKind), Wire(c, RepKind)}
  {
    var evs := [Send(Wire(c, ReqKind))];
    assert [] + evs == evs;
    PlayMore(n, [], Send(Wire(c, ReqKind)));
    PlayMore(n, evs, Arrive(Wire(c, ReqKind)));
    evs := evs + [Arrive(Wire(c, ReqKind))];
    PlayMore(n, evs, Send(Wire(c, RepKind)));
    evs := evs + [Send(Wire(c, RepKind))];
    PlayMore(n, evs, Arrive(Wire(c, RepKind)));
    PlayMore(n, evs + [Arrive(Wire(c, RepKind))], Send(Wire(c, RtuKind)));
  }

  /** End `e`'s answer for the other end of connection `c`. */
  function Answer(n: Network, y: System, c: Plan, e: End): u32 {
    GetSourceQpn(y.At(e), FlowKey(n.Ip(e.Other()), c.QpnAt(e.Other())))
  }

  lemma {:induction false} AnswersOnceRtuSent(n: Network, evs: seq<Event>, c: Plan)
    requires n.Proper() && c in n.plans && Play(n, evs).Some? && SentBy(Play(n, evs).value, c, RtuKind)
    ensures
      var y := Play(n, evs).value;
      && Answer(n, y, c, c.asker) == c.askerQpn
      && Answer(n, y, c, c.asker.Other()) == if ArrivedAt(y, c, RtuKind) then c.answererQpn else 0
  {
    PlayHasInv(n, evs);
    AnswersMirrorFor(n, Play(n, evs).value, c, c.asker);
  }

  lemma {:induction false} RtuArrives(n: Network, evs: seq<Event>, c: Plan)
    requires n.Proper() && c in n.plans && Play(n, evs).Some? && SentBy(Play(n, evs).value, c, RtuKind)
    ensures
      var z := Play(n, evs + [Arrive(Wire(c, RtuKind))]);
      z.Some? && Answer(n, z.value, c, c.asker) == c.askerQpn && Answer(n, z.value, c, c.asker.Other()) == c.answererQpn
  {
    PlayMore(n, evs, Arrive(Wire(c, RtuKind)));
    AnswersOnceRtuSent(n, evs + [Arrive(Wire(c, RtuKind))], c);
  }

  /** In every network a connection's plain handshake is such a play: once the RTU
      is sent the asker answers and the other end does not yet; once it has arrived
      both do. */
  lemma {:induction false} PlainHandshake(n: Network, c: Plan)
    requires n.Proper() && c in n.plans
    ensures c.askerQpn != 0 && c.answererQpn != 0
    ensures
      var y := Play(n, UpToRtu(c));
      y.Some? && Answer(n, y.value, c, c.asker) == c.askerQpn && Answer(n, y.value, c, c.asker.Other()) == 0
    ensures
      var z := Play(n, UpToRtu(c) + [Arrive(Wire(c, RtuKind))]);
      z.Some? && Answer(n, z.value, c, c.asker) == c.askerQpn && Answer(n, z.value, c, c.asker.Other()) == c.answererQpn
  {
    UpToRtuPlays(n, c);
    AnswersOnceRtuSent(n, UpToRtu(c), c);
    RtuArrives(n, UpToRtu(c), c);
    assert c.QpnAt(c.asker) != 0 && c.QpnAt(c.asker.Other()) != 0;
  }

  /** And there are such networks. */
  lemma SmallNetworkIsProper()
    ensures Network(1, 2, {Plan(Left, 3, 4, 5, 6)}).Proper()
  { }
}
