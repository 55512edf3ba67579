/**
 When the posting protocol alone, with no help from the ledger's request id, posts each row once:
 concrete runs that post twice under each fault, and the exact condition.
 */
module PostingFaults {
  import opened Posting

  /** Some allowed run ends in this state. */
  ghost predicate Reached(f: Faults, dedupes: bool, s: State) {
    exists events :: AllowedRun(f, dedupes, events) && Run(dedupes, events) == s
  }

  lemma Start(f: Faults, dedupes: bool)
    ensures Reached(f, dedupes, Init(dedupes))
  {
    assert AllowedRun(f, dedupes, []) && Run(dedupes, []) == Init(dedupes);
  }

  lemma Extend(f: Faults, dedupes: bool, s: State, e: Event)
    requires Reached(f, dedupes, s) && Allowed(f, s, e)
    ensures Reached(f, dedupes, Step(s, e))
  {
    var events :| AllowedRun(f, dedupes, events) && Run(dedupes, events) == s;
    var longer := events + [e];
    RunSnoc(dedupes, events, e);
    forall k | 0 <= k < |longer| ensures Allowed(f, Run(dedupes, longer[..k]), longer[k]) {
      assert k < |events| ==> longer[..k] == events[..k];
      assert k == |events| ==> longer[..k] == events;
    }
    assert AllowedRun(f, dedupes, longer);
  }

  /** A row that a run can be started on and will load. */
  predicate Sendable(s: State, w: WritebackId) {
    s.job.Idle? && w in s.rows.Keys && s.rows[w].status.Pending? && w.decision !in s.voided && w.kind.JournalEntry?
  }

  /** A run is started on a queued request and gets past the checks of its row. */
  lemma RunLoads(f: Faults, dedupes: bool, s: State, r: Request)
    requires Reached(f, dedupes, s) && Sendable(s, r.w) && r in s.queue && r.key !in s.window
    ensures Reached(f, dedupes, s.(window := s.window + {r.key}, job := Running(r.w, r.retry, AtBuild, false)))
  {
    var s1 := s.(window := s.window + {r.key}, job := Running(r.w, r.retry, AtLoad, false));
    DeliverThenLoad(s, r);
    Extend(f, dedupes, s, Deliver(r));
    Extend(f, dedupes, s1, Load(true));
  }

  lemma DeliverThenLoad(s: State, r: Request)
    requires Sendable(s, r.w) && r in s.queue && r.key !in s.window
    ensures var s1 := s.(window := s.window + {r.key}, job := Running(r.w, r.retry, AtLoad, false));
            Step(s, Deliver(r)) == s1 && Step(s1, Load(true)) == s1.(job := Running(r.w, r.retry, AtBuild, false))
  {
  }

  /** A first run builds its posting and stands before its send. */
  lemma FirstRunBuilds(f: Faults, dedupes: bool, s: State, w: WritebackId)
    requires Reached(f, dedupes, s) && s.job == Running(w, false, AtBuild, false)
    ensures Reached(f, dedupes, s.(job := Running(w, false, AtSend, false)))
  {
    Extend(f, dedupes, s, Build(None));
  }

  /** A retry run builds, looks, finds nothing under the reference and stands before its send. */
  lemma RetryRunLooks(f: Faults, dedupes: bool, s: State, w: WritebackId)
    requires Reached(f, dedupes, s) && s.job == Running(w, true, AtBuild, false) && !Holds(s.sends, w)
    ensures Reached(f, dedupes, s.(job := Running(w, true, AtSend, false)))
  {
    Extend(f, dedupes, s, Build(None));
    var s1 := s.(job := Running(w, true, AtLook, false));
    assert Step(s, Build(None)) == s1;
    assert !HoldsTwo(s1.sends, w);
    Extend(f, dedupes, s1, Look(true, true));
    assert Step(s1, Look(true, true)) == s.(job := Running(w, true, AtSend, false));
  }

  /** The run sends and dies before it records. */
  lemma RunSendsAndDies(f: Faults, dedupes: bool, s: State, w: WritebackId, retry: bool, reply: Reply, fate: Fate)
    requires Reached(f, dedupes, s) && s.job == Running(w, retry, AtSend, false)
    requires (reply.Answered? && fate == LandingFate(s, w)) || (reply.ArrivesLate? && f.sendsArriveLate && fate == InFlight)
    ensures Reached(f, dedupes, s.(job := Idle, sends := s.sends + [SendMade(w, fate, false)]))
  {
    var s1 := SendStep(s, reply);
    assert Step(s, Send(reply)) == s1;
    assert Allowed(f, s, Send(reply));
    Extend(f, dedupes, s, Send(reply));
    Extend(f, dedupes, s1, Die);
    assert Step(s1, Die) == s.(job := Idle, sends := s.sends + [SendMade(w, fate, false)]);
  }

  /** A first run that sends and dies before it records: the row stays pending. */
  lemma FirstRunDies(f: Faults, dedupes: bool, s: State, w: WritebackId, reply: Reply, fate: Fate)
    requires Reached(f, dedupes, s) && Sendable(s, w)
    requires Request(w, First(w), false) in s.queue && First(w) !in s.window
    requires (reply.Answered? && fate == LandingFate(s, w)) || (reply.ArrivesLate? && f.sendsArriveLate && fate == InFlight)
    ensures Reached(f, dedupes, s.(window := s.window + {First(w)}, sends := s.sends + [SendMade(w, fate, false)]))
  {
    RunLoads(f, dedupes, s, Request(w, First(w), false));
    var s1 := s.(window := s.window + {First(w)}, job := Running(w, false, AtBuild, false));
    FirstRunBuilds(f, dedupes, s1, w);
    RunSendsAndDies(f, dedupes, s1.(job := Running(w, false, AtSend, false)), w, false, reply, fate);
  }

  /** A retry run that finds nothing under the reference, sends, and dies before it records. */
  lemma RetryRunDies(f: Faults, dedupes: bool, s: State, w: WritebackId, k: Key)
    requires Reached(f, dedupes, s) && Sendable(s, w) && !Holds(s.sends, w)
    requires Request(w, k, true) in s.queue && k !in s.window
    ensures Reached(f, dedupes, s.(window := s.window + {k}, sends := s.sends + [SendMade(w, Landed, false)]))
  {
    RunLoads(f, dedupes, s, Request(w, k, true));
    var s1 := s.(window := s.window + {k}, job := Running(w, true, AtBuild, false));
    RetryRunLooks(f, dedupes, s1, w);
    RunSendsAndDies(f, dedupes, s1.(job := Running(w, true, AtSend, false)), w, true, Answered, Landed);
  }

  const ENTRY := WritebackId(0, JournalEntry)

  function Approved(): State {
    Init(false).(rows := map[ENTRY := Row(Pending, [])], queue := {Request(ENTRY, First(ENTRY), false)})
  }

  lemma ApprovedReached(f: Faults)
    ensures Reached(f, false, Approved())
  {
    Start(f, false);
    Extend(f, false, Init(false), InsertRow(ENTRY));
    Extend(f, false, Step(Init(false), InsertRow(ENTRY)), QueueFirst(ENTRY));
    assert Step(Step(Init(false), InsertRow(ENTRY)), QueueFirst(ENTRY)) == Approved();
  }

  lemma TwoLanded(s: State, w: WritebackId, i: nat, j: nat)
    requires i < j && LandedFor(s.sends, i, w) && LandedFor(s.sends, j, w)
    ensures !AtMostOneEntry(s.sends)
  {
  }

  lemma ExpiryPostsTwice(f: Faults)
    requires f.keysExpire
    ensures exists s :: Reached(f, false, s) && !AtMostOneEntry(s.sends)
  {
    ApprovedReached(f);
    var s := Approved();
    FirstRunDies(f, false, s, ENTRY, Answered, Landed);
    var s1 := s.(window := {First(ENTRY)}, sends := [SendMade(ENTRY, Landed, false)]);
    assert s.window + {First(ENTRY)} == s1.window && s.sends + [SendMade(ENTRY, Landed, false)] == s1.sends;
    Extend(f, false, s1, Expire(First(ENTRY)));
    var s2 := s1.(window := {});
    assert Step(s1, Expire(First(ENTRY))) == s2;
    FirstRunDies(f, false, s2, ENTRY, Answered, Landed);
    var s3 := s2.(window := s2.window + {First(ENTRY)}, sends := s2.sends + [SendMade(ENTRY, Landed, false)]);
    TwoLanded(s3, ENTRY, 0, 1);
  }

  /** The fresh request a person's press queues on a pending row. */
  function Pressed(s: State, w: WritebackId): State {
    s.(queue := s.queue + {Request(w, Fresh(s.nextFresh), true)}, nextFresh := s.nextFresh + 1)
  }

  lemma Press(f: Faults, dedupes: bool, s: State, w: WritebackId)
    requires Reached(f, dedupes, s) && Sendable(s, w)
    requires First(w) !in s.window ==> f.retryOvertakesFirst
    ensures Reached(f, dedupes, Pressed(s, w))
  {
    Extend(f, dedupes, s, PressRetry(w, true));
    assert s.rows[w := s.rows[w].(status := Pending)] == s.rows;
    assert Step(s, PressRetry(w, true)) == Pressed(s, w);
  }

  lemma OvertakingPostsTwice(f: Faults)
    requires f.retryOvertakesFirst
    ensures exists s :: Reached(f, false, s) && !AtMostOneEntry(s.sends)
  {
    ApprovedReached(f);
    Press(f, false, Approved(), ENTRY);
    var s1 := Pressed(Approved(), ENTRY);
    RetryRunDies(f, false, s1, ENTRY, Fresh(0));
    var s2 := s1.(window := s1.window + {Fresh(0)}, sends := s1.sends + [SendMade(ENTRY, Landed, false)]);
    FirstRunDies(f, false, s2, ENTRY, Answered, Landed);
    var s3 := s2.(window := s2.window + {First(ENTRY)}, sends := s2.sends + [SendMade(ENTRY, Landed, false)]);
    TwoLanded(s3, ENTRY, 0, 1);
  }

  /** The first run's send is still on its way when the run is lost; then a person presses retry. */
  function LateThenPressed(): State {
    Approved().(window := {First(ENTRY)}, sends := [SendMade(ENTRY, InFlight, false)],
                queue := {Request(ENTRY, First(ENTRY), false), Request(ENTRY, Fresh(0), true)}, nextFresh := 1)
  }

  lemma LateThenPressedReached(f: Faults)
    requires f.sendsArriveLate
    ensures Reached(f, false, LateThenPressed())
  {
    ApprovedReached(f);
    var s := Approved();
    FirstRunDies(f, false, s, ENTRY, ArrivesLate, InFlight);
    var s1 := s.(window := s.window + {First(ENTRY)}, sends := s.sends + [SendMade(ENTRY, InFlight, false)]);
    Press(f, false, s1, ENTRY);
    assert Pressed(s1, ENTRY) == LateThenPressed();
  }

  lemma LateLandingDoubles(s: State)
    requires s.sends == [SendMade(ENTRY, InFlight, false), SendMade(ENTRY, Landed, false)] && !s.dedupes
    ensures !AtMostOneEntry(Step(s, LateLanding(0)).sends)
  {
    TwoLanded(Step(s, LateLanding(0)), ENTRY, 0, 1);
  }

  lemma LatenessPostsTwice(f: Faults)
    requires f.sendsArriveLate
    ensures exists s :: Reached(f, false, s) && !AtMostOneEntry(s.sends)
  {
    LateThenPressedReached(f);
    var s := LateThenPressed();
    assert !Holds(s.sends, ENTRY);
    RetryRunDies(f, false, s, ENTRY, Fresh(0));
    var s1 := s.(window := s.window + {Fresh(0)}, sends := s.sends + [SendMade(ENTRY, Landed, false)]);
    LateLandingDoubles(s1);
    Extend(f, false, s1, LateLanding(0));
  }

  /**
   Exactly when the protocol alone, with no help from the ledger, posts each row once: when the
   window outlives every redelivery, no send arrives late, and no retry overtakes a first send.
   */
  lemma OneEntryIffNoFaults(f: Faults)
    ensures (forall events :: AllowedRun(f, false, events) ==> AtMostOneEntry(Run(false, events).sends)) <==>
            f == NO_FAULTS
  {
    if f == NO_FAULTS {
      forall events | AllowedRun(f, false, events) ensures AtMostOneEntry(Run(false, events).sends) {
        LookingFirstGivesOneEntry(false, events);
      }
    } else {
      if f.keysExpire { ExpiryPostsTwice(f); }
      else if f.sendsArriveLate { LatenessPostsTwice(f); }
      else { OvertakingPostsTwice(f); }
      var s :| Reached(f, false, s) && !AtMostOneEntry(s.sends);
      var events :| AllowedRun(f, false, events) && Run(false, events) == s;
    }
  }
}
