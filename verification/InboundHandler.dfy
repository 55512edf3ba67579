/**
 One delivery from its first await to its answer, as `handleInboundPostmark` and
 `receiveInboundEmail` run it and as a run of the protocol; what a redelivery settles, and what each
 part of the design is for.
 */
module InboundHandler {
  import opened InboundDoor

  /** Everything the outside answers to one delivery. */
  datatype Replies = Replies(
    lookedUp: bool, refuserMayWrite: bool, refuserAsked: bool, refusal: Reply, memberMayWrite: bool, memberAsked: bool,
    connected: bool, existing: bool, ingested: bool, selected: bool, record: Reply, committed: bool, send: Reply)

  function Advance(x: Effect, e: Event): Effect {
    if InTurn(x.d, e) then Act(x.door, x.d, e) else x
  }

  function TakeClaim(x: Effect, free: bool): Effect {
    if x.d.at.AtClaim? then MoveTo(x.door, x.d, if free then AtExisting else AtAnswer(TryAgain503)) else x
  }

  function Arrived(door: Door): Effect {
    Effect(door, Delivery(AtLookup, None, None))
  }

  function UpToClaim(door: Door, r: Replies): Effect {
    Advance(Advance(Advance(Advance(Arrived(door), Lookup(0, r.lookedUp)), Refuse(0, r.refuserMayWrite, r.refuserAsked)),
                    RefuseInsert(0, r.refusal)), Member(0, r.memberMayWrite, r.memberAsked))
  }

  function UnderClaim(x: Effect, r: Replies): Effect {
    Advance(Advance(Advance(Advance(Advance(x, Existing(0, r.existing)), Ingest(0, r.ingested)), Select(0, r.selected)),
                    Insert(0, r.record)), Commit(0, r.committed))
  }

  /** One delivery nothing interrupts: what it leaves durable, and what it answers. */
  function Whole(door: Door, free: bool, r: Replies): Effect {
    Advance(UnderClaim(TakeClaim(UpToClaim(door, r), free && r.connected), r), Send(0, r.send))
  }

  lemma UpToClaimDecides(door: Door, r: Replies)
    ensures var at := UpToClaim(door, r).d.at; at.AtClaim? || at.AtAnswer?
    ensures UpToClaim(door, r).d.at.AtClaim? ==> UpToClaim(door, r).door == door
  {
  }

  lemma UnderClaimDecides(x: Effect, r: Replies)
    requires x.d.at.AtExisting? || x.d.at.AtAnswer?
    ensures var y := UnderClaim(x, r); y.d.at.AtAnswer? || (y.d.at.AtSend? && y.d.message.Some?)
    ensures x.d.at.AtAnswer? ==> UnderClaim(x, r) == x
  {
  }

  /** Every delivery that lives to its answer has one of the three. */
  lemma WholeAnswers(door: Door, free: bool, r: Replies)
    ensures Whole(door, free, r).d.at.AtAnswer?
  {
    UpToClaimDecides(door, r);
    UnderClaimDecides(TakeClaim(UpToClaim(door, r), free && r.connected), r);
  }

  // -------------------------------------------------------------------------
  // The handler
  // -------------------------------------------------------------------------

  class InboundStore {
    var door: Door
  }

  /** `receiveInboundEmail` under the message's claim: the message's row, found or written, once it is durable. */
  method Receive(store: InboundStore, r: Replies, ghost d: Delivery) returns (message: Option<nat>)
    requires d.at.AtExisting?
    modifies store
    ensures var x := UnderClaim(Effect(old(store.door), d), r);
            store.door == x.door && (message.Some? <==> x.d.at.AtSend?) && (message.Some? ==> x.d.message == message) &&
            (message.None? ==> x.d.at == AtAnswer(TryAgain503))
    ensures message.Some? ==> message.value in store.door.received
    ensures old(store.door.received) != [] ==> store.door == old(store.door)
    ensures old(store.door.received) <= store.door.received && |store.door.received| <= |old(store.door.received)| + 1
  {
    if !r.existing { return None; }
    if store.door.received == [] {
      if !r.ingested || !r.selected || store.door.address.Retired? || r.record.Failed? { return None; }
      store.door := store.door.(received := [store.door.nextId], nextId := store.door.nextId + 1);
      if r.record.DoneButLost? { return None; }
    }
    return if r.committed then Some(store.door.received[0]) else None;
  }

  /** `handleInboundPostmark`, once the payload names a token: record, then queue, then acknowledge. */
  method HandleInboundPostmark(store: InboundStore, claimFree: bool, r: Replies) returns (status: Status)
    requires store.door.design == AS_BUILT
    modifies store
    ensures var x := Whole(old(store.door), claimFree, r); store.door == x.door && x.d.at == AtAnswer(status)
    ensures status.Ok200? ==>
              exists id :: id in store.door.received && store.door.queued == old(store.door.queued) + [id]
    ensures status.Refused403? ==> !old(store.door.address).Live? && store.door.queued == old(store.door.queued)
  {
    WholeAnswers(store.door, claimFree, r);
    UpToClaimDecides(store.door, r);
    if !r.lookedUp { return TryAgain503; }
    if store.door.address.Unissued? { return Refused403; }
    if store.door.address.Retired? {
      status := RefuseRetired(store, r);
      return;
    }
    if !r.memberAsked || !r.memberMayWrite { return TryAgain503; }
    if !claimFree || !r.connected { return TryAgain503; }
    status := ReceiveThenSend(store, r);
  }

  /** The claim is held: record, then queue the row's own id, then acknowledge. */
  method ReceiveThenSend(store: InboundStore, r: Replies) returns (status: Status)
    requires store.door.design == AS_BUILT
    modifies store
    ensures var x := Advance(UnderClaim(Effect(old(store.door), Delivery(AtExisting, Some(Live), None)), r), Send(0, r.send));
            store.door == x.door && x.d.at == AtAnswer(status)
    ensures status.Ok200? ==>
              exists id :: id in store.door.received && store.door.queued == old(store.door.queued) + [id]
    ensures !status.Refused403?
  {
    UnderClaimDecides(Effect(store.door, Delivery(AtExisting, Some(Live), None)), r);
    UnderClaimKeeps(Effect(store.door, Delivery(AtExisting, Some(Live), None)), r);
    var message := Receive(store, r, Delivery(AtExisting, Some(Live), None));
    if message.None? || r.send.Failed? { return TryAgain503; }
    store.door := store.door.(queued := store.door.queued + [message.value], nextId := store.door.nextId + 1);
    return if r.send.Fine? then Ok200 else TryAgain503;
  }

  lemma UnderClaimKeeps(x: Effect, r: Replies)
    requires x.d.at.AtExisting?
    ensures var y := UnderClaim(x, r); y.door.design == x.door.design && y.door.queued == x.door.queued && y.d.saw == x.d.saw
  {
  }

  /** Mail at a retired address: recorded as refused when its retirer may still write, then 403. */
  method RefuseRetired(store: InboundStore, r: Replies) returns (status: Status)
    requires store.door.address.Retired? && store.door.design.indexed
    modifies store
    ensures var x := Advance(Advance(Effect(old(store.door), Delivery(AtRefuse, Some(Retired), None)),
                                     Refuse(0, r.refuserMayWrite, r.refuserAsked)), RefuseInsert(0, r.refusal));
            store.door == x.door && x.d.at == AtAnswer(status)
    ensures status.Refused403? && r.refuserMayWrite ==> store.door.refused != []
    ensures store.door.queued == old(store.door.queued) && store.door.received == old(store.door.received)
    ensures !status.Ok200?
  {
    if !r.refuserAsked { return TryAgain503; }
    if !r.refuserMayWrite || store.door.refused != [] { return Refused403; }
    if r.refusal.Failed? { return TryAgain503; }
    store.door := store.door.(refused := [store.door.nextId], nextId := store.door.nextId + 1);
    return if r.refusal.Fine? then Refused403 else TryAgain503;
  }

  // -------------------------------------------------------------------------
  // The handler is a run of the protocol
  // -------------------------------------------------------------------------

  /** The events of a delivery nothing interrupts. */
  function DeliveryEvents(i: nat, r: Replies): seq<Event> {
    [Arrive, Lookup(i, r.lookedUp), Refuse(i, r.refuserMayWrite, r.refuserAsked), RefuseInsert(i, r.refusal),
     Member(i, r.memberMayWrite, r.memberAsked), Claim(i, r.connected), Existing(i, r.existing), Ingest(i, r.ingested),
     Select(i, r.selected), Insert(i, r.record), Commit(i, r.committed), Send(i, r.send), Answer(i)]
  }

  /** The state around delivery `i` once it has this effect. */
  function With(s: State, i: nat, x: Effect): State
    requires i < |s.deliveries|
  {
    s.(door := x.door, deliveries := s.deliveries[i := x.d],
       claim := if x.door.design.claims && Inside(x.d.at) then Some(i) else None)
  }

  /** The effect of a delivery's first `k` awaits. */
  function EffectAt(door: Door, r: Replies, k: nat): Effect
    requires k < 13
  {
    if k == 0 then Arrived(door)
    else if k == 5 then TakeClaim(EffectAt(door, r, 4), r.connected)
    else Advance(EffectAt(door, r, k - 1), DeliveryEvents(0, r)[k])
  }

  lemma EffectsUpToClaim(door: Door, r: Replies)
    ensures EffectAt(door, r, 4) == UpToClaim(door, r)
  {
    assert EffectAt(door, r, 1) == Advance(EffectAt(door, r, 0), Lookup(0, r.lookedUp));
    assert EffectAt(door, r, 2) == Advance(EffectAt(door, r, 1), Refuse(0, r.refuserMayWrite, r.refuserAsked));
    assert EffectAt(door, r, 3) == Advance(EffectAt(door, r, 2), RefuseInsert(0, r.refusal));
  }

  lemma EffectsUnderClaim(door: Door, r: Replies)
    ensures EffectAt(door, r, 10) == UnderClaim(EffectAt(door, r, 5), r)
  {
    assert EffectAt(door, r, 6) == Advance(EffectAt(door, r, 5), Existing(0, r.existing));
    assert EffectAt(door, r, 7) == Advance(EffectAt(door, r, 6), Ingest(0, r.ingested));
    assert EffectAt(door, r, 8) == Advance(EffectAt(door, r, 7), Select(0, r.selected));
    assert EffectAt(door, r, 9) == Advance(EffectAt(door, r, 8), Insert(0, r.record));
    assert EffectAt(door, r, 10) == Advance(EffectAt(door, r, 9), Commit(0, r.committed));
  }

  lemma EffectsAreWhole(door: Door, r: Replies)
    ensures EffectAt(door, r, 11) == Whole(door, true, r)
    ensures var whole := Whole(door, true, r);
            whole.d.at.AtAnswer? && EffectAt(door, r, 12) == Effect(whole.door, whole.d.(at := Answered(whole.d.at.status)))
  {
    EffectsUpToClaim(door, r);
    EffectsUnderClaim(door, r);
    WholeAnswers(door, true, r);
    assert EffectAt(door, r, 11) == Advance(EffectAt(door, r, 10), Send(0, r.send));
    assert EffectAt(door, r, 12) == Advance(EffectAt(door, r, 11), Answer(0));
  }

  /** Nothing before the claim is inside it. */
  lemma NotYetInside(door: Door, r: Replies)
    ensures !Inside(EffectAt(door, r, 4).d.at)
  {
    EffectsUpToClaim(door, r);
    UpToClaimDecides(door, r);
  }

  /** Two events that say the same of different deliveries. */
  predicate SameAwait(e: Event, f: Event) {
    match (e, f)
    case (Lookup(_, a), Lookup(_, b)) => a == b
    case (Refuse(_, a, x), Refuse(_, b, y)) => a == b && x == y
    case (RefuseInsert(_, a), RefuseInsert(_, b)) => a == b
    case (Member(_, a, x), Member(_, b, y)) => a == b && x == y
    case (Existing(_, a), Existing(_, b)) => a == b
    case (Ingest(_, a), Ingest(_, b)) => a == b
    case (Select(_, a), Select(_, b)) => a == b
    case (Insert(_, a), Insert(_, b)) => a == b
    case (Commit(_, a), Commit(_, b)) => a == b
    case (Send(_, a), Send(_, b)) => a == b
    case (Answer(_), Answer(_)) => true
    case _ => false
  }

  lemma SameEffect(x: Effect, e: Event, f: Event)
    requires SameAwait(e, f) && DeliveryEvent(e) && DeliveryEvent(f)
    ensures InTurn(x.d, e) <==> InTurn(x.d, f)
    ensures InTurn(x.d, e) ==> Act(x.door, x.d, e) == Act(x.door, x.d, f)
    ensures var y := Advance(x, f); y.door.design == x.door.design && (Inside(y.d.at) ==> Inside(x.d.at))
  {
  }

  /** One event of delivery `i`, seen from the whole state. */
  lemma WithStep(s: State, i: nat, x: Effect, e: Event, f: Event)
    requires i < |s.deliveries| && DeliveryEvent(e) && DeliveryEvent(f) && e.i == i && SameAwait(e, f)
    ensures DeliveryStep(With(s, i, x), e) == With(s, i, Advance(x, f))
  {
    var t := With(s, i, x);
    SameEffect(x, e, f);
    var y := Advance(x, f);
    assert t.deliveries[i] == x.d && t.deliveries[i := y.d] == s.deliveries[i := y.d];
  }

  lemma WithClaim(s: State, i: nat, x: Effect, connected: bool)
    requires i < |s.deliveries| && !Inside(x.d.at)
    ensures Step(With(s, i, x), Claim(i, connected)) == With(s, i, TakeClaim(x, connected))
  {
    var t := With(s, i, x);
    assert t.deliveries[i] == x.d;
    var after := TakeClaim(x, connected).d;
    assert t.deliveries[i := after] == s.deliveries[i := after];
  }

  lemma EventsAlike(i: nat, r: Replies, k: nat)
    requires 0 < k < 13 && k != 5
    ensures var (e, f) := (DeliveryEvents(i, r)[k], DeliveryEvents(0, r)[k]);
            DeliveryEvent(e) && DeliveryEvent(f) && e.i == i && SameAwait(e, f)
  {
  }

  lemma DeliveryRunStep(door: Door, s1: State, i: nat, r: Replies, k: nat)
    requires 0 < k < 13 && i < |s1.deliveries|
    ensures Step(With(s1, i, EffectAt(door, r, k - 1)), DeliveryEvents(i, r)[k]) == With(s1, i, EffectAt(door, r, k))
  {
    if k == 5 {
      NotYetInside(door, r);
      WithClaim(s1, i, EffectAt(door, r, 4), r.connected);
    } else {
      EventsAlike(i, r, k);
      WithStep(s1, i, EffectAt(door, r, k - 1), DeliveryEvents(i, r)[k], DeliveryEvents(0, r)[k]);
    }
  }

  /** What a delivery nothing interrupts leaves of the whole state. */
  function AfterDelivery(s: State, r: Replies): State {
    var x := Whole(s.door, true, r);
    if !x.d.at.AtAnswer? then s
    else s.(door := x.door, deliveries := s.deliveries + [x.d.(at := Answered(x.d.at.status))])
  }

  lemma AfterDeliveryIs(s: State, r: Replies, door: Door, d: Delivery)
    requires Whole(s.door, true, r) == Effect(door, d) && d.at.AtAnswer?
    ensures AfterDelivery(s, r) == s.(door := door, deliveries := s.deliveries + [d.(at := Answered(d.at.status))])
  {
  }

  function StatesOf(s: State, r: Replies): seq<State> {
    var s1 := Step(s, Arrive);
    [s] + seq(13, k requires 0 <= k < 13 => With(s1, |s.deliveries|, EffectAt(s.door, r, k)))
  }

  lemma StatesAreLinked(s: State, r: Replies)
    requires s.claim.None?
    ensures Linked(StatesOf(s, r), DeliveryEvents(|s.deliveries|, r))
  {
    var (states, e, s1) := (StatesOf(s, r), DeliveryEvents(|s.deliveries|, r), Step(s, Arrive));
    forall k: nat | k < 13 ensures Step(states[k], e[k]) == states[k + 1] {
      if k == 0 {
        assert states[1] == s1;
      } else {
        DeliveryRunStep(s.door, s1, |s.deliveries|, r, k);
      }
    }
  }

  /**
   A delivery nothing interrupts and whose claim is free, from any reachable state of any design:
   the state ends as `Whole` says. So `HandleInboundPostmark` is that run.
   */
  lemma WholeIsRun(x: Design, events: seq<Event>, r: Replies)
    requires Run(x, events).claim.None?
    ensures var s := Run(x, events);
            Run(x, events + DeliveryEvents(|s.deliveries|, r)) == AfterDelivery(s, r) && Whole(s.door, true, r).d.at.AtAnswer?
  {
    var s := Run(x, events);
    StatesAreLinked(s, r);
    RunThrough(x, events, DeliveryEvents(|s.deliveries|, r), StatesOf(s, r));
    EffectsAreWhole(s.door, r);
    LastState(s, r);
  }

  lemma LastState(s: State, r: Replies)
    requires s.claim.None?
    ensures StatesOf(s, r)[13] == AfterDelivery(s, r)
  {
    EffectsAreWhole(s.door, r);
    var d := EffectAt(s.door, r, 12).d;
    assert Step(s, Arrive).deliveries[|s.deliveries| := d] == s.deliveries + [d];
  }

  // -------------------------------------------------------------------------
  // What a redelivery settles
  // -------------------------------------------------------------------------

  const ANSWERED := Replies(true, true, true, Fine, true, true, true, true, true, true, Fine, true, Fine)

  const QUEUE_DOWN := ANSWERED.(send := Failed)

  lemma LiveUpToClaim(door: Door)
    requires door.address.Live?
    ensures UpToClaim(door, ANSWERED) == UpToClaim(door, QUEUE_DOWN) == Effect(door, Delivery(AtClaim, Some(Live), None))
  {
  }

  /** The row a delivery with every call answered ends with: the one there is, or its own. */
  function Recorded(door: Door): (r: Door)
    ensures r.received != []
  {
    if door.received == [] then door.(received := [door.nextId], nextId := door.nextId + 1) else door
  }

  lemma LiveUnderClaim(door: Door)
    requires door.address.Live?
    ensures var x := Effect(door, Delivery(AtExisting, Some(Live), None));
            UnderClaim(x, ANSWERED) == UnderClaim(x, QUEUE_DOWN) ==
            Effect(Recorded(door), Delivery(AtSend, Some(Live), Some(Recorded(door).received[0])))
  {
  }

  /** What a delivery with every call answered leaves at a live address; without the queue, all but its read. */
  lemma AnsweredWhole(door: Door)
    requires door.address.Live?
    ensures var recorded := Recorded(door);
            Whole(door, true, ANSWERED) == Effect(
              recorded.(queued := recorded.queued + [if door.design.keyIsRow then recorded.received[0] else recorded.nextId],
                        nextId := recorded.nextId + 1),
              Delivery(AtAnswer(Ok200), Some(Live), Some(recorded.received[0]))) &&
            Whole(door, true, QUEUE_DOWN) ==
            Effect(recorded, Delivery(AtAnswer(TryAgain503), Some(Live), Some(recorded.received[0])))
  {
    LiveUpToClaim(door);
    LiveUnderClaim(door);
  }

  /** Whatever failed before, while the address is live one answered redelivery is acknowledged. */
  lemma RedeliverySettles(x: Design, events: seq<Event>)
    requires Run(x, events).claim.None? && Run(x, events).door.address.Live?
    ensures var s := Run(x, events);
            var t := Run(x, events + DeliveryEvents(|s.deliveries|, ANSWERED));
            |t.deliveries| == |s.deliveries| + 1 && t.deliveries[|s.deliveries|].at == Answered(Ok200) &&
            t.door.received != [] && |t.door.queued| == |s.door.queued| + 1
  {
    WholeIsRun(x, events, ANSWERED);
    AnsweredWhole(Run(x, events).door);
  }

  // -------------------------------------------------------------------------
  // What each part of the design is for
  // -------------------------------------------------------------------------

  function LiveDoor(x: Design): Door {
    NewDoor(x).(address := Live)
  }

  lemma Issued(x: Design)
    ensures Run(x, [Issue]) == Init(x).(door := LiveDoor(x))
  {
    RunSnoc(x, [], Issue);
    assert [] + [Issue] == [Issue];
  }

  /** The door an answered delivery leaves. */
  function AnsweredDoor(door: Door): Door {
    var recorded := Recorded(door);
    recorded.(queued := recorded.queued + [if door.design.keyIsRow then recorded.received[0] else recorded.nextId],
              nextId := recorded.nextId + 1)
  }

  lemma AnsweredRun(x: Design, events: seq<Event>)
    requires Run(x, events).claim.None? && Run(x, events).door.address.Live?
    ensures var s := Run(x, events);
            Run(x, events + DeliveryEvents(|s.deliveries|, ANSWERED)) ==
            s.(door := AnsweredDoor(s.door),
               deliveries := s.deliveries + [Delivery(Answered(Ok200), Some(Live), Some(Recorded(s.door).received[0]))])
  {
    var s := Run(x, events);
    WholeIsRun(x, events, ANSWERED);
    AnsweredWhole(s.door);
    AfterDeliveryIs(s, ANSWERED, AnsweredDoor(s.door), Delivery(AtAnswer(Ok200), Some(Live), Some(Recorded(s.door).received[0])));
  }

  lemma StartedTwice(x: Design, events: seq<Event>, j: nat, k: nat)
    requires var s := Run(x, events); j != k && j in s.door.queued && k in s.door.queued && s.window == {} && s.runs == []
    ensures Run(x, events + [StartRead(j), StartRead(k)]).runs == [j, k]
  {
    RunSnoc(x, events, StartRead(j));
    RunSnoc(x, events + [StartRead(j)], StartRead(k));
    assert events + [StartRead(j)] + [StartRead(k)] == events + [StartRead(j), StartRead(k)];
  }

  lemma TwoKeys(x: Design)
    requires !x.keyIsRow
    ensures AnsweredDoor(AnsweredDoor(LiveDoor(x))).queued == [1, 2] && AnsweredDoor(LiveDoor(x)).address.Live?
  {
  }

  /** Two answered deliveries of one message, one after the other. */
  const DELIVERED_TWICE: seq<Event> := [Issue] + DeliveryEvents(0, ANSWERED) + DeliveryEvents(1, ANSWERED)

  /** A key minted for each delivery reads the message twice. */
  lemma KeyPerDeliveryReadsTwice(x: Design)
    requires !x.keyIsRow
    ensures Run(x, DELIVERED_TWICE + [StartRead(1), StartRead(2)]).runs == [1, 2]
  {
    Issued(x);
    AnsweredRun(x, [Issue]);
    TwoKeys(x);
    AnsweredRun(x, [Issue] + DeliveryEvents(0, ANSWERED));
    StartedTwice(x, DELIVERED_TWICE, 1, 2);
  }

  /** A first delivery, alone at a live address. */
  function OneAt(x: Design, at: Point): State {
    Init(x).(door := LiveDoor(x), deliveries := [Delivery(at, Some(Live), None)])
  }

  const FINDS_NO_ROW: seq<Event> :=
    [Arrive, Lookup(0, true), Member(0, true, true), Claim(0, true), Existing(0, true), Ingest(0, true), Select(0, true)]

  lemma FindsNoRow(x: Design)
    requires !x.claims
    ensures Run(x, [Issue] + FINDS_NO_ROW) == OneAt(x, AtInsert)
  {
    Issued(x);
    var s0 := Init(x).(door := LiveDoor(x));
    var s1 := s0.(deliveries := [Delivery(AtLookup, None, None)]);
    var states := [s0, s1, OneAt(x, AtMember), OneAt(x, AtClaim), OneAt(x, AtExisting), OneAt(x, AtIngest),
                   OneAt(x, AtSelect), OneAt(x, AtInsert)];
    FindsNoRowSteps(x, s1);
    FindsNoRowInside(x);
    FindsNoRowTwice(x);
    RunThrough(x, [Issue], FINDS_NO_ROW, states);
  }

  lemma FindsNoRowSteps(x: Design, s1: State)
    requires !x.claims && s1 == Init(x).(door := LiveDoor(x), deliveries := [Delivery(AtLookup, None, None)])
    ensures Step(Init(x).(door := LiveDoor(x)), Arrive) == s1 && Step(s1, Lookup(0, true)) == OneAt(x, AtMember)
  {
  }

  lemma FindsNoRowInside(x: Design)
    requires !x.claims
    ensures Step(OneAt(x, AtMember), Member(0, true, true)) == OneAt(x, AtClaim)
    ensures Step(OneAt(x, AtClaim), Claim(0, true)) == OneAt(x, AtExisting)
  {
  }

  lemma FindsNoRowTwice(x: Design)
    ensures Step(OneAt(x, AtExisting), Existing(0, true)) == OneAt(x, AtIngest)
    ensures Step(OneAt(x, AtIngest), Ingest(0, true)) == OneAt(x, AtSelect)
    ensures Step(OneAt(x, AtSelect), Select(0, true)) == OneAt(x, AtInsert)
  {
  }

  /** Meanwhile a second is answered; then the first inserts a row of its own and sends it. */
  const INSERTS_ANYWAY: seq<Event> := [Insert(0, Fine), Commit(0, true), Send(0, Fine)]

  const RECORDED_TWICE: seq<Event> := [Issue] + FINDS_NO_ROW + DeliveryEvents(1, ANSWERED) + INSERTS_ANYWAY

  lemma InsertsAnyway(s: State)
    requires !s.door.design.indexed && |s.deliveries| == 2 && s.deliveries[0] == Delivery(AtInsert, Some(Live), None)
    requires s.claim.None?
    ensures var d := Step(Step(Step(s, INSERTS_ANYWAY[0]), INSERTS_ANYWAY[1]), INSERTS_ANYWAY[2]);
            d.door.received == s.door.received + [s.door.nextId] && d.window == s.window && d.runs == s.runs &&
            d.door.queued == s.door.queued + [if s.door.design.keyIsRow then s.door.nextId else s.door.nextId + 1]
  {
    var s1 := Step(s, Insert(0, Fine));
    assert s1.deliveries[0] == Delivery(AtCommit, Some(Live), Some(s.door.nextId));
    var s2 := Step(s1, Commit(0, true));
    assert s2.deliveries[0] == Delivery(AtSend, Some(Live), Some(s.door.nextId)) && s2.door == s1.door;
  }

  /** Without claims and without an index two deliveries record the message twice, and it is read under both ids. */
  lemma UnguardedRecordsTwice(x: Design)
    requires !x.claims && !x.indexed
    ensures Run(x, RECORDED_TWICE).door.received == [0, 2]
    ensures x.keyIsRow ==> Run(x, RECORDED_TWICE + [StartRead(0), StartRead(2)]).runs == [0, 2]
  {
    var before := [Issue] + FINDS_NO_ROW;
    FindsNoRow(x);
    AnsweredRun(x, before);
    var met := before + DeliveryEvents(1, ANSWERED);
    var s := Run(x, met);
    InsertsAnyway(s);
    RunSnoc(x, met, INSERTS_ANYWAY[0]);
    RunSnoc(x, met + INSERTS_ANYWAY[..1], INSERTS_ANYWAY[1]);
    RunSnoc(x, met + INSERTS_ANYWAY[..2], INSERTS_ANYWAY[2]);
    assert met + INSERTS_ANYWAY[..1] == met + [INSERTS_ANYWAY[0]];
    assert met + INSERTS_ANYWAY[..2] == met + INSERTS_ANYWAY[..1] + [INSERTS_ANYWAY[1]];
    assert met + INSERTS_ANYWAY == met + INSERTS_ANYWAY[..2] + [INSERTS_ANYWAY[2]];
    if x.keyIsRow { StartedTwice(x, RECORDED_TWICE, 0, 2); }
  }

  /** Over every run one message has one row exactly when deliveries take a claim or the table is indexed. */
  lemma OneRecordExactly(keyIsRow: bool, claims: bool, indexed: bool)
    ensures (forall events :: |Run(Design(claims, indexed, keyIsRow), events).door.received| <= 1) <==> claims || indexed
  {
    var x := Design(claims, indexed, keyIsRow);
    if claims || indexed {
      forall events ensures |Run(x, events).door.received| <= 1 { EveryRunKeeps(x, events); }
    } else {
      UnguardedRecordsTwice(x);
    }
  }

  /**
   Over every run in which keys stay in the window, the message's redeliveries start at most one read
   run exactly when the key is the row's id and there is one row.
   */
  lemma OneReadRunExactly(x: Design)
    ensures (forall events :: KeysStay(events) ==> |Run(x, events).runs| <= 1) <==> x.keyIsRow && (x.claims || x.indexed)
  {
    if !x.keyIsRow {
      KeyPerDeliveryReadsTwice(x);
      assert KeysStay(DELIVERED_TWICE + [StartRead(1), StartRead(2)]);
    } else if !x.claims && !x.indexed {
      UnguardedRecordsTwice(x);
      assert KeysStay(RECORDED_TWICE + [StartRead(0), StartRead(2)]);
    } else {
      forall events | KeysStay(events) ensures |Run(x, events).runs| <= 1 { OneReadRunInTheWindow(x, events); }
    }
  }
}
