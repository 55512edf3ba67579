/**
 When a message can still be read, whatever has happened to its deliveries so far, and the recorded
 message that never is.
 */
module InboundReads {
  import opened InboundDoor
  import opened InboundHandler

  /** At a retired address: a delivery that found it live can still queue the message's read. */
  predicate CanStillQueue(door: Door, at: Point) {
    match at
    case AtSend => true
    case AtCommit => true
    case AtExisting => door.received != []
    case AtClaim => door.received != []
    case AtMember => door.received != []
    case AtInsert => door.received == [] || !door.design.indexed
    case _ => false
  }

  /** The address is retired with nothing queued, and no delivery can still queue. */
  predicate NeverQueued(s: State) {
    s.door.address.Retired? && s.door.queued == [] &&
    forall i: nat | i < |s.deliveries| :: !CanStillQueue(s.door, s.deliveries[i].at)
  }

  lemma ActNeverQueues(door: Door, d: Delivery, e: Event)
    requires InTurn(d, e) && door.address.Retired? && !CanStillQueue(door, d.at)
    ensures var x := Act(door, d, e);
            x.door.queued == door.queued && x.door.received == door.received && x.door.design == door.design &&
            x.door.address.Retired? && !CanStillQueue(x.door, x.d.at)
  {
  }

  lemma NeverQueuedKept(s: State, e: Event)
    requires NeverQueued(s)
    ensures NeverQueued(Step(s, e)) && Step(s, e).runs == s.runs
  {
    if DeliveryEvent(e) && e.i < |s.deliveries| && InTurn(s.deliveries[e.i], e) {
      ActNeverQueues(s.door, s.deliveries[e.i], e);
    }
  }

  /** From such a state no redelivery, whatever is answered to it, queues the read. */
  lemma {:induction false} NeverReadAfterRetirement(x: Design, events: seq<Event>, more: seq<Event>)
    requires NeverQueued(Run(x, events))
    ensures NeverQueued(Run(x, events + more)) && Run(x, events + more).runs == Run(x, events).runs
    decreases |more|
  {
    if more == [] {
      assert events + more == events;
    } else {
      var n := |more| - 1;
      NeverReadAfterRetirement(x, events, more[..n]);
      assert events + more == events + more[..n] + [more[n]];
      RunSnoc(x, events + more[..n], more[n]);
      NeverQueuedKept(Run(x, events + more[..n]), more[n]);
    }
  }

  /** In some continuation a read of the message starts. */
  ghost predicate Readable(x: Design, events: seq<Event>) {
    exists more :: Run(x, events + more).runs != []
  }

  lemma ReadableBefore(x: Design, events: seq<Event>, more: seq<Event>)
    requires Readable(x, events + more)
    ensures Readable(x, events)
  {
    var rest :| Run(x, events + more + rest).runs != [];
    assert events + more + rest == events + (more + rest);
  }

  lemma QueuedIsReadable(x: Design, events: seq<Event>)
    requires Run(x, events).door.queued != []
    ensures Readable(x, events)
  {
    var s := Run(x, events);
    if s.runs != [] {
      assert events + [] == events;
    } else {
      EveryRunKeeps(x, events);
      var k := s.door.queued[0];
      assert Counted(s.window, s.expired, s.runs, k);
      RunSnoc(x, events, StartRead(k));
    }
  }

  lemma SendIsReadable(x: Design, events: seq<Event>, i: nat)
    requires var ds := Run(x, events).deliveries; i < |ds| && ds[i].at.AtSend?
    ensures Readable(x, events)
  {
    var s := Run(x, events);
    EveryRunKeeps(x, events);
    assert DeliveryInv(s.door, s.deliveries[i]);
    RunSnoc(x, events, Send(i, Fine));
    QueuedIsReadable(x, events + [Send(i, Fine)]);
    ReadableBefore(x, events, [Send(i, Fine)]);
  }

  lemma CommitIsReadable(x: Design, events: seq<Event>, i: nat)
    requires var ds := Run(x, events).deliveries; i < |ds| && ds[i].at.AtCommit?
    ensures Readable(x, events)
  {
    RunSnoc(x, events, Commit(i, true));
    SendIsReadable(x, events + [Commit(i, true)], i);
    ReadableBefore(x, events, [Commit(i, true)]);
  }

  lemma ExistingIsReadable(x: Design, events: seq<Event>, i: nat)
    requires var s := Run(x, events); i < |s.deliveries| && s.deliveries[i].at.AtExisting? && s.door.received != []
    ensures Readable(x, events)
  {
    RunSnoc(x, events, Existing(i, true));
    CommitIsReadable(x, events + [Existing(i, true)], i);
    ReadableBefore(x, events, [Existing(i, true)]);
  }

  lemma InsertIsReadable(x: Design, events: seq<Event>, i: nat)
    requires var s := Run(x, events);
             i < |s.deliveries| && s.deliveries[i].at.AtInsert? && (s.door.received == [] || !s.door.design.indexed)
    ensures Readable(x, events)
  {
    RunSnoc(x, events, Insert(i, Fine));
    CommitIsReadable(x, events + [Insert(i, Fine)], i);
    ReadableBefore(x, events, [Insert(i, Fine)]);
  }

  /** Behind a claim that is held, it is the holder who goes on. */
  lemma ClaimIsReadable(x: Design, events: seq<Event>, i: nat)
    requires var s := Run(x, events); i < |s.deliveries| && s.deliveries[i].at.AtClaim? && s.door.received != []
    ensures Readable(x, events)
  {
    var s := Run(x, events);
    EveryRunKeeps(x, events);
    if s.claim.None? {
      RunSnoc(x, events, Claim(i, true));
      ExistingIsReadable(x, events + [Claim(i, true)], i);
      ReadableBefore(x, events, [Claim(i, true)]);
    } else if s.deliveries[s.claim.value].at.AtExisting? {
      ExistingIsReadable(x, events, s.claim.value);
    } else {
      CommitIsReadable(x, events, s.claim.value);
    }
  }

  lemma MemberIsReadable(x: Design, events: seq<Event>, i: nat)
    requires var s := Run(x, events); i < |s.deliveries| && s.deliveries[i].at.AtMember? && s.door.received != []
    ensures Readable(x, events)
  {
    RunSnoc(x, events, Member(i, true, true));
    ClaimIsReadable(x, events + [Member(i, true, true)], i);
    ReadableBefore(x, events, [Member(i, true, true)]);
  }

  lemma CanStillQueueIsReadable(x: Design, events: seq<Event>, i: nat)
    requires var s := Run(x, events); i < |s.deliveries| && CanStillQueue(s.door, s.deliveries[i].at)
    ensures Readable(x, events)
  {
    match Run(x, events).deliveries[i].at
    case AtSend => SendIsReadable(x, events, i);
    case AtCommit => CommitIsReadable(x, events, i);
    case AtExisting => ExistingIsReadable(x, events, i);
    case AtInsert => InsertIsReadable(x, events, i);
    case AtClaim => ClaimIsReadable(x, events, i);
    case AtMember => MemberIsReadable(x, events, i);
  }

  lemma DyingFreesTheClaim(s: State)
    requires ClaimInv(s) && s.claim.Some?
    ensures var t := Step(s, Die(s.claim.value)); t.claim.None? && t.door == s.door
  {
  }

  lemma LiveIsReadable(x: Design, events: seq<Event>)
    requires Run(x, events).door.address.Live?
    ensures Readable(x, events)
  {
    var claim := Run(x, events).claim;
    if claim.Some? {
      EveryRunKeeps(x, events);
      DyingFreesTheClaim(Run(x, events));
      RunSnoc(x, events, Die(claim.value));
      FreeIsReadable(x, events + [Die(claim.value)]);
      ReadableBefore(x, events, [Die(claim.value)]);
    } else {
      FreeIsReadable(x, events);
    }
  }

  lemma FreeIsReadable(x: Design, events: seq<Event>)
    requires Run(x, events).door.address.Live? && Run(x, events).claim.None?
    ensures Readable(x, events)
  {
    var delivery := DeliveryEvents(|Run(x, events).deliveries|, ANSWERED);
    RedeliverySettles(x, events);
    QueuedIsReadable(x, events + delivery);
    ReadableBefore(x, events, delivery);
  }

  /**
   Whatever happened so far, some continuation has started a read of the message exactly when one has
   started, or the address is not retired, or a read is queued, or a delivery can still queue one.
   */
  lemma ReadableExactly(x: Design, events: seq<Event>)
    ensures (exists more :: Run(x, events + more).runs != []) <==>
            Run(x, events).runs != [] || !NeverQueued(Run(x, events))
  {
    var s := Run(x, events);
    assert events + [] == events;
    if s.runs == [] {
      if NeverQueued(s) {
        forall more ensures Run(x, events + more).runs == [] { NeverReadAfterRetirement(x, events, more); }
      } else if s.door.queued != [] {
        QueuedIsReadable(x, events);
      } else if s.door.address.Unissued? {
        RunSnoc(x, events, Issue);
        LiveIsReadable(x, events + [Issue]);
        ReadableBefore(x, events, [Issue]);
      } else if s.door.address.Live? {
        LiveIsReadable(x, events);
      } else {
        var i: nat :| i < |s.deliveries| && CanStillQueue(s.door, s.deliveries[i].at);
        CanStillQueueIsReadable(x, events, i);
      }
    }
  }

  const QUEUE_DOWN_THEN_RETIRED: seq<Event> := [Issue] + DeliveryEvents(0, QUEUE_DOWN) + [Retire]

  lemma QueueDownThenRetired()
    ensures var s := Run(AS_BUILT, QUEUE_DOWN_THEN_RETIRED);
            s.door == LiveDoor(AS_BUILT).(address := Retired, received := [0], nextId := 1) && s.claim.None? &&
            |s.deliveries| == 1 && s.deliveries[0].at == Answered(TryAgain503)
  {
    Issued(AS_BUILT);
    WholeIsRun(AS_BUILT, [Issue], QUEUE_DOWN);
    AnsweredWhole(LiveDoor(AS_BUILT));
    RunSnoc(AS_BUILT, [Issue] + DeliveryEvents(0, QUEUE_DOWN), Retire);
  }

  lemma RetiredDeliveryRefused(door: Door)
    requires door.address.Retired? && door.refused == []
    ensures Whole(door, true, ANSWERED) ==
            Effect(door.(refused := [door.nextId], nextId := door.nextId + 1), Delivery(AtAnswer(Refused403), Some(Retired), None))
  {
  }

  /**
   And it is reached with the message recorded: the queue refuses the first delivery, the owner
   retires the address, and the redelivery is answered 403, which ends Postmark's retries.
   */
  lemma RecordedAndNeverRead()
    ensures var s := Run(AS_BUILT, QUEUE_DOWN_THEN_RETIRED + DeliveryEvents(1, ANSWERED));
            s.door.received == [0] && NeverQueued(s) && |s.deliveries| == 2 && s.deliveries[1].at == Answered(Refused403)
  {
    QueueDownThenRetired();
    WholeIsRun(AS_BUILT, QUEUE_DOWN_THEN_RETIRED, ANSWERED);
    RefusedOnRedelivery(Run(AS_BUILT, QUEUE_DOWN_THEN_RETIRED));
  }

  lemma RefusedOnRedelivery(s: State)
    requires s.door == LiveDoor(AS_BUILT).(address := Retired, received := [0], nextId := 1) && s.claim.None?
    requires |s.deliveries| == 1 && s.deliveries[0].at == Answered(TryAgain503)
    ensures var t := AfterDelivery(s, ANSWERED);
            t.door.received == [0] && NeverQueued(t) && |t.deliveries| == 2 && t.deliveries[1].at == Answered(Refused403)
  {
    var door := s.door.(refused := [1], nextId := 2);
    RetiredDeliveryRefused(s.door);
    AfterDeliveryIs(s, ANSWERED, door, Delivery(AtAnswer(Refused403), Some(Retired), None));
    RefusedTwiceOver(s.deliveries[0], door, s.(door := door,
                     deliveries := s.deliveries + [Delivery(Answered(Refused403), Some(Retired), None)]));
  }

  lemma RefusedTwiceOver(first: Delivery, door: Door, t: State)
    requires first.at.Answered? && door.address.Retired? && door.queued == [] && t.door == door
    requires t.deliveries == [first] + [Delivery(Answered(Refused403), Some(Retired), None)]
    ensures NeverQueued(t)
  {
  }
}
