/**
 Sends nobody recorded, and what they leave in the books of a settlement the card calls voidable or
 of one that was voided.
 */
module PostingVoids {
  import opened Posting
  import opened PostingFaults

  /** At step `k` a run ends between its send and the record of it. */
  predicate LosesItsSend(dedupes: bool, events: seq<Event>, k: nat, w: WritebackId)
    requires k < |events|
  {
    var s := Run(dedupes, events[..k]);
    s.job.Running? && s.job.w == w && s.job.sent &&
    (events[k].Die? || (events[k].Record? && !events[k].stored))
  }

  predicate SomeRunLosesItsSend(dedupes: bool, events: seq<Event>, w: WritebackId) {
    exists k: nat | k < |events| :: LosesItsSend(dedupes, events, k, w)
  }

  /** The send the running job has made and not yet recorded. */
  predicate OwnSend(s: State, i: nat) {
    s.job.Running? && s.job.sent && i + 1 == |s.sends|
  }

  /** A send that is not recorded after this step was not before it, or was lost in it. */
  lemma StepLosesOrRecords(s: State, e: Event, i: nat)
    requires Inv(s)
    requires var t := Step(s, e); i < |t.sends| && !t.sends[i].recorded && !OwnSend(t, i)
    ensures i < |s.sends| && !s.sends[i].recorded && Step(s, e).sends[i].w == s.sends[i].w
    ensures OwnSend(s, i) ==> s.job.w == s.sends[i].w && (e.Die? || (e.Record? && !e.stored))
  {
    if e.Record? || e.Send? {
    } else {
      OtherStepsKeepSends(s, e);
    }
  }

  lemma OtherStepsKeepSends(s: State, e: Event)
    requires !e.Record? && !e.Send?
    requires s.job.Running? && s.job.sent ==> s.job.at.AtReadBack? || s.job.at.AtRecord?
    ensures var t := Step(s, e);
            |t.sends| == |s.sends| &&
            (forall i: nat | i < |s.sends| :: t.sends[i].w == s.sends[i].w && t.sends[i].recorded == s.sends[i].recorded) &&
            (s.job.Running? && s.job.sent ==> e.Die? || (t.job.Running? && t.job.sent))
  {
  }

  lemma LossesOfPrefix(dedupes: bool, events: seq<Event>, w: WritebackId)
    requires events != [] && SomeRunLosesItsSend(dedupes, events[..|events| - 1], w)
    ensures SomeRunLosesItsSend(dedupes, events, w)
  {
    var before := events[..|events| - 1];
    var k: nat :| k < |before| && LosesItsSend(dedupes, before, k, w);
    assert before[..k] == events[..k];
    assert LosesItsSend(dedupes, events, k, w);
  }

  /** An unrecorded send that no run is about to record is one whose run was lost. */
  lemma {:induction false} UnrecordedSendWasLost(dedupes: bool, events: seq<Event>, i: nat)
    requires var s := Run(dedupes, events); i < |s.sends| && !s.sends[i].recorded && !OwnSend(s, i)
    ensures SomeRunLosesItsSend(dedupes, events, Run(dedupes, events).sends[i].w)
  {
    if events != [] {
      var last := |events| - 1;
      var before := events[..last];
      EveryRunKeeps(dedupes, before);
      var s := Run(dedupes, before);
      StepLosesOrRecords(s, events[last], i);
      if OwnSend(s, i) {
        assert LosesItsSend(dedupes, events, last, s.sends[i].w);
      } else {
        UnrecordedSendWasLost(dedupes, before, i);
        LossesOfPrefix(dedupes, events, s.sends[i].w);
      }
    }
  }

  // -------------------------------------------------------------------------
  // The settlement the card calls voidable
  // -------------------------------------------------------------------------

  /**
   With no job running, a settlement the card calls voidable has an entry in the books exactly
   when a send of it landed that no attempt records; so some run of that row died in between.
   */
  lemma CardVoidableExactly(dedupes: bool, events: seq<Event>, w: WritebackId)
    requires Run(dedupes, events).job.Idle? && CardVoidable(Run(dedupes, events), w.decision)
    ensures var s := Run(dedupes, events);
            Holds(s.sends, w) <==> exists i: nat | i < |s.sends| :: LandedFor(s.sends, i, w) && !s.sends[i].recorded
    ensures Holds(Run(dedupes, events).sends, w) ==> SomeRunLosesItsSend(dedupes, events, w)
  {
    EveryRunKeeps(dedupes, events);
    var s := Run(dedupes, events);
    if Holds(s.sends, w) {
      var i: nat :| i < |s.sends| && LandedFor(s.sends, i, w);
      assert SendInv(s.rows, s.sends[i]);
      assert !s.sends[i].recorded;
      UnrecordedSendWasLost(dedupes, events, i);
    }
  }

  /** A run that is loaded and ends before its send, recorded as having sent nothing. */
  lemma RunFailsBeforeSend(f: Faults, dedupes: bool, s: State, r: Request)
    requires Reached(f, dedupes, s) && Sendable(s, r.w) && r in s.queue && r.key !in s.window
    ensures Reached(f, dedupes, s.(window := s.window + {r.key},
                                   rows := s.rows[r.w := Row(Failed, s.rows[r.w].attempts + [InvoiceLookupFailed])]))
  {
    RunLoads(f, dedupes, s, r);
    var s1 := s.(window := s.window + {r.key}, job := Running(r.w, r.retry, AtBuild, false));
    Extend(f, dedupes, s1, Build(Some(InvoiceLookupFailed)));
    var s2 := s1.(job := Running(r.w, r.retry, AtRecord(Failed, InvoiceLookupFailed), false));
    assert Step(s1, Build(Some(InvoiceLookupFailed))) == s2;
    Extend(f, dedupes, s2, Record(true));
    assert Step(s2, Record(true)) ==
           s.(window := s.window + {r.key},
              rows := s.rows[r.w := Row(Failed, s.rows[r.w].attempts + [InvoiceLookupFailed])]);
  }

  /** The first run sent, landed and died; then a person pressed retry. */
  function LostThenPressed(): State {
    Approved().(window := {First(ENTRY)}, sends := [SendMade(ENTRY, Landed, false)],
                queue := {Request(ENTRY, First(ENTRY), false), Request(ENTRY, Fresh(0), true)}, nextFresh := 1)
  }

  lemma LostThenPressedReached()
    ensures Reached(NO_FAULTS, false, LostThenPressed())
  {
    ApprovedReached(NO_FAULTS);
    var s := Approved();
    FirstRunDies(NO_FAULTS, false, s, ENTRY, Answered, Landed);
    var s1 := s.(window := s.window + {First(ENTRY)}, sends := s.sends + [SendMade(ENTRY, Landed, false)]);
    Press(NO_FAULTS, false, s1, ENTRY);
    assert Pressed(s1, ENTRY) == LostThenPressed();
  }

  /** The retry could not look the invoice up, and says that it sent nothing. */
  function LostThenRefused(): State {
    LostThenPressed().(window := {First(ENTRY), Fresh(0)}, rows := map[ENTRY := Row(Failed, [InvoiceLookupFailed])])
  }

  lemma LostThenRefusedReached()
    ensures Reached(NO_FAULTS, false, LostThenRefused())
  {
    LostThenPressedReached();
    var s := LostThenPressed();
    RunFailsBeforeSend(NO_FAULTS, false, s, Request(ENTRY, Fresh(0), true));
    assert [] + [InvoiceLookupFailed] == [InvoiceLookupFailed];
    assert s.window + {Fresh(0)} == LostThenRefused().window;
    assert s.rows[ENTRY := Row(Failed, [InvoiceLookupFailed])] == LostThenRefused().rows;
  }

  lemma LostThenRefusedIsVoidable()
    ensures var s := LostThenRefused(); s.job.Idle? && CardVoidable(s, 0) && Holds(s.sends, ENTRY)
  {
    var s := LostThenRefused();
    assert LandedFor(s.sends, 0, ENTRY);
    assert NothingSent(s.rows[ENTRY]);
  }

  /**
   So the card alone is not enough, even with no fault of the ledger or the runtime: the first
   run sends, lands and dies; the retry cannot look the invoice up and records that it sent nothing.
   */
  lemma CardVoidableWithAnEntry()
    ensures exists s :: Reached(NO_FAULTS, false, s) && s.job.Idle? && CardVoidable(s, 0) && Holds(s.sends, ENTRY)
  {
    LostThenRefusedReached();
    LostThenRefusedIsVoidable();
  }

  // -------------------------------------------------------------------------
  // A voided settlement
  // -------------------------------------------------------------------------

  predicate UnsentSoFar(attempts: seq<Reason>) {
    attempts == [] || NothingWasSent(attempts)
  }

  /** What the ledger's answer to an ask still tells: an asked row's landed sends came after it, or were in flight. */
  predicate AskedInv(sends: seq<SendMade>, a: Asked) {
    a.sendsThen <= |sends| &&
    forall i: nat | i < a.sendsThen ::
      (sends[i].fate.InFlight? || (sends[i].fate.Landed? && sends[i].w in a.rows)) ==> i in a.inFlightThen
  }

  predicate VoidedInv(rows: map<WritebackId, Row>, sends: seq<SendMade>, d: nat, a: Asked) {
    a.decision == d && AskedInv(sends, a) &&
    (forall w :: w in rows.Keys && w.decision == d ==> UnsentSoFar(rows[w].attempts)) &&
    (forall i: nat | i < |sends| :: sends[i].w.decision == d ==> sends[i].w in a.rows)
  }

  predicate VoidsInv(s: State) {
    (forall a :: a in s.asked ==> AskedInv(s.sends, a)) &&
    (forall d :: d in s.voided ==> VoidedInv(s.rows, s.sends, d, s.voided[d]))
  }

  lemma StepNeverSendsVoided(s: State, e: Event, i: nat)
    requires Inv(s) && i < |Step(s, e).sends| && Step(s, e).sends[i].w.decision in s.voided
    ensures i < |s.sends|
  {
  }

  /** No run past its first checks acts for a voided decision, so nothing of it is ever sent again. */
  lemma VoidedIsNeverSent(dedupes: bool, events: seq<Event>, e: Event, i: nat)
    requires i < |Run(dedupes, events + [e]).sends|
    requires Run(dedupes, events + [e]).sends[i].w.decision in Run(dedupes, events).voided
    ensures i < |Run(dedupes, events).sends|
  {
    EveryRunKeeps(dedupes, events);
    var s := Run(dedupes, events);
    assert Run(dedupes, events + [e]) == Step(s, e) by { RunSnoc(dedupes, events, e); }
    StepNeverSendsVoided(s, e, i);
  }

  lemma VoidsSendKept(s: State, reply: Reply)
    requires Inv(s) && VoidsInv(s) && s.job.Running? && s.job.at.AtSend?
    ensures VoidsInv(SendStep(s, reply))
  {
    var t := SendStep(s, reply);
    assert t.sends[..|s.sends|] == s.sends;
    forall d | d in t.voided ensures VoidedInv(t.rows, t.sends, d, t.voided[d]) {
      assert VoidedInv(s.rows, s.sends, d, s.voided[d]);
    }
  }

  lemma VoidsLandingKept(s: State, i: nat)
    requires Inv(s) && VoidsInv(s)
    ensures VoidsInv(Step(s, LateLanding(i)))
  {
    var t := Step(s, LateLanding(i));
    forall a | AskedInv(s.sends, a) ensures AskedInv(t.sends, a) {}
    forall d | d in t.voided ensures VoidedInv(t.rows, t.sends, d, t.voided[d]) {
      assert VoidedInv(s.rows, s.sends, d, s.voided[d]);
    }
  }

  lemma VoidsRecordKept(s: State, stored: bool)
    requires Inv(s) && VoidsInv(s) && s.job.Running? && s.job.at.AtRecord?
    ensures VoidsInv(RecordStep(s, stored))
  {
    var t := RecordStep(s, stored);
    forall i: nat | i < |t.sends| ensures t.sends[i].w == s.sends[i].w && t.sends[i].fate == s.sends[i].fate {}
    forall a | AskedInv(s.sends, a) ensures AskedInv(t.sends, a) {}
    forall d | d in t.voided ensures VoidedInv(t.rows, t.sends, d, t.voided[d]) {
      assert VoidedInv(s.rows, s.sends, d, s.voided[d]);
    }
  }

  lemma VoidsRowsKept(s: State, e: Event)
    requires Inv(s) && VoidsInv(s) && (e.InsertRow? || e.PressRetry?)
    ensures VoidsInv(Step(s, e))
  {
    var t := Step(s, e);
    forall d | d in t.voided ensures VoidedInv(t.rows, t.sends, d, t.voided[d]) {
      assert VoidedInv(s.rows, s.sends, d, s.voided[d]);
    }
  }

  lemma VoidsAskKept(s: State, d: nat)
    requires Inv(s) && VoidsInv(s)
    ensures VoidsInv(AskStep(s, d))
  {
    var t := AskStep(s, d);
    if t != s {
      var a := Asked(d, RowsOf(s, d), |s.sends|, StillInFlight(s.sends), s.rows[WritebackId(d, JournalEntry)].attempts);
      forall i: nat | i < |s.sends| && s.sends[i].fate.Landed? ensures s.sends[i].w !in a.rows {
        assert LandedFor(s.sends, i, s.sends[i].w);
      }
      assert AskedInv(s.sends, a);
    }
  }

  lemma VoidsCommitKept(s: State, a: Asked)
    requires Inv(s) && VoidsInv(s)
    ensures VoidsInv(CommitVoidStep(s, a))
  {
    var t := CommitVoidStep(s, a);
    if t != s {
      forall i: nat | i < |s.sends| && s.sends[i].w.decision == a.decision ensures s.sends[i].w in a.rows {
        assert SendInv(s.rows, s.sends[i]);
      }
      assert VoidedInv(t.rows, t.sends, a.decision, a);
    }
  }

  lemma JobStepsLeaveStore(s: State, e: Event)
    requires e.QueueFirst? || e.Deliver? || e.Expire? || e.Load? || e.Build? || e.Look? || e.ReadBack? || e.Die? ||
             ((e.Send? || e.Record?) && !s.job.Running?) || (e.Send? && !s.job.at.AtSend?) || (e.Record? && !s.job.at.AtRecord?)
    ensures var t := Step(s, e); t.rows == s.rows && t.sends == s.sends && t.asked == s.asked && t.voided == s.voided
  {
  }

  lemma VoidsStepKept(s: State, e: Event)
    requires Inv(s) && VoidsInv(s)
    ensures VoidsInv(Step(s, e))
  {
    match e
    case Send(reply) =>
      if s.job.Running? && s.job.at.AtSend? { VoidsSendKept(s, reply); } else { JobStepsLeaveStore(s, e); }
    case LateLanding(i) => VoidsLandingKept(s, i);
    case Record(stored) =>
      if s.job.Running? && s.job.at.AtRecord? { VoidsRecordKept(s, stored); } else { JobStepsLeaveStore(s, e); }
    case InsertRow(w) => VoidsRowsKept(s, e);
    case PressRetry(w, queued) => VoidsRowsKept(s, e);
    case AskLedger(d) => VoidsAskKept(s, d);
    case CommitVoid(a) => VoidsCommitKept(s, a);
    case _ => JobStepsLeaveStore(s, e);
  }

  lemma {:induction false} EveryRunKeepsVoids(dedupes: bool, events: seq<Event>)
    ensures VoidsInv(Run(dedupes, events))
  {
    if events != [] {
      var before := events[..|events| - 1];
      EveryRunKeepsVoids(dedupes, before);
      EveryRunKeeps(dedupes, before);
      VoidsStepKept(Run(dedupes, before), events[|events| - 1]);
    }
  }

  /** A send the ledger's answer could not have shown. */
  predicate UnseenByAsk(s: State, i: nat, a: Asked) {
    i < |s.sends| && !s.sends[i].recorded && (i >= a.sendsThen || i in a.inFlightThen)
  }

  lemma VoidedSendIsUnseen(s: State, i: nat)
    requires Inv(s) && VoidsInv(s) && i < |s.sends|
    requires s.sends[i].w.decision in s.voided && s.sends[i].fate.Landed?
    ensures UnseenByAsk(s, i, s.voided[s.sends[i].w.decision]) && !OwnSend(s, i)
  {
    var w := s.sends[i].w;
    assert SendInv(s.rows, s.sends[i]);
    assert VoidedInv(s.rows, s.sends, w.decision, s.voided[w.decision]);
  }

  /**
   From the moment a decision is voided and for ever after, the books hold an entry of it exactly
   when a send landed that no attempt records and that the ledger's answer could not show, being
   made after the answer or in flight at it. Such a send's run was lost.
   */
  lemma VoidedHoldsExactly(dedupes: bool, events: seq<Event>, w: WritebackId)
    requires w.decision in Run(dedupes, events).voided
    ensures var s := Run(dedupes, events);
            Holds(s.sends, w) <==>
            exists i: nat | i < |s.sends| :: LandedFor(s.sends, i, w) && UnseenByAsk(s, i, s.voided[w.decision])
    ensures Holds(Run(dedupes, events).sends, w) ==> SomeRunLosesItsSend(dedupes, events, w)
  {
    EveryRunKeeps(dedupes, events);
    EveryRunKeepsVoids(dedupes, events);
    var s := Run(dedupes, events);
    if Holds(s.sends, w) {
      var i: nat :| i < |s.sends| && LandedFor(s.sends, i, w);
      VoidedSendIsUnseen(s, i);
      UnrecordedSendWasLost(dedupes, events, i);
    }
  }

  /** A first failure before the send: the settlement card offers the void, and the ledger holds nothing. */
  function Refusable(): State {
    Approved().(window := {First(ENTRY)}, rows := map[ENTRY := Row(Failed, [InvoiceLookupFailed])])
  }

  lemma RefusableReached()
    ensures Reached(NO_FAULTS, false, Refusable())
  {
    ApprovedReached(NO_FAULTS);
    var s := Approved();
    RunFailsBeforeSend(NO_FAULTS, false, s, Request(ENTRY, First(ENTRY), false));
    assert [] + [InvoiceLookupFailed] == [InvoiceLookupFailed];
    assert s.window + {First(ENTRY)} == Refusable().window;
    assert s.rows[ENTRY := Row(Failed, [InvoiceLookupFailed])] == Refusable().rows;
  }

  const ASKED := Asked(0, {ENTRY}, 0, {}, [InvoiceLookupFailed])

  lemma AskPasses(s: State)
    requires s == Refusable()
    ensures Step(s, AskLedger(0)) == s.(asked := {ASKED})
  {
    assert NothingSent(s.rows[ENTRY]);
    assert RowsOf(s, 0) == {ENTRY};
    assert StillInFlight(s.sends) == {};
  }

  /** The void has asked the ledger; before its lock, a person presses retry. */
  function AskedThenPressed(): State {
    Refusable().(asked := {ASKED}, rows := map[ENTRY := Row(Pending, [InvoiceLookupFailed])],
                 queue := {Request(ENTRY, First(ENTRY), false), Request(ENTRY, Fresh(0), true)}, nextFresh := 1)
  }

  lemma PressOnRefusable(s: State)
    requires s == Refusable().(asked := {ASKED})
    ensures Step(s, PressRetry(ENTRY, true)) == AskedThenPressed()
  {
  }

  lemma AskedThenPressedReached()
    ensures Reached(NO_FAULTS, false, AskedThenPressed())
  {
    RefusableReached();
    Extend(NO_FAULTS, false, Refusable(), AskLedger(0));
    AskPasses(Refusable());
    var s := Refusable().(asked := {ASKED});
    Extend(NO_FAULTS, false, s, PressRetry(ENTRY, true));
    PressOnRefusable(s);
  }

  /** The retry found nothing, sent, landed and died; a person pressed again. */
  function PressedAgain(): State {
    AskedThenPressed().(
      window := {First(ENTRY), Fresh(0)}, sends := [SendMade(ENTRY, Landed, false)], nextFresh := 2,
      queue := {Request(ENTRY, First(ENTRY), false), Request(ENTRY, Fresh(0), true), Request(ENTRY, Fresh(1), true)})
  }

  lemma PressedAgainReached()
    ensures Reached(NO_FAULTS, false, PressedAgain())
  {
    AskedThenPressedReached();
    var s := AskedThenPressed();
    RetryRunDies(NO_FAULTS, false, s, ENTRY, Fresh(0));
    var s1 := s.(window := s.window + {Fresh(0)}, sends := s.sends + [SendMade(ENTRY, Landed, false)]);
    Press(NO_FAULTS, false, s1, ENTRY);
    assert Pressed(s1, ENTRY) == PressedAgain();
  }

  /** The second retry could not look the invoice up, and says that it sent nothing. */
  function RefusedAgain(): State {
    PressedAgain().(window := {First(ENTRY), Fresh(0), Fresh(1)},
                    rows := map[ENTRY := Row(Failed, [InvoiceLookupFailed, InvoiceLookupFailed])])
  }

  lemma RefusedAgainReached()
    ensures Reached(NO_FAULTS, false, RefusedAgain())
  {
    PressedAgainReached();
    var s := PressedAgain();
    RunFailsBeforeSend(NO_FAULTS, false, s, Request(ENTRY, Fresh(1), true));
    assert s.rows[ENTRY].attempts + [InvoiceLookupFailed] == [InvoiceLookupFailed, InvoiceLookupFailed];
    assert s.window + {Fresh(1)} == RefusedAgain().window;
    assert s.rows[ENTRY := Row(Failed, [InvoiceLookupFailed, InvoiceLookupFailed])] == RefusedAgain().rows;
  }

  lemma CommitPasses(s: State)
    requires s == RefusedAgain()
    ensures 0 in Step(s, CommitVoid(ASKED)).voided && Holds(Step(s, CommitVoid(ASKED)).sends, ENTRY)
  {
    assert NothingSent(s.rows[ENTRY]);
    assert RowsOf(s, 0) == {ENTRY};
    assert LandedFor(s.sends, 0, ENTRY);
  }

  /** So a settlement can be voided while its entry stands in the books, with no fault of the ledger or the runtime. */
  lemma VoidedWithAnEntry()
    ensures exists s :: Reached(NO_FAULTS, false, s) && 0 in s.voided && Holds(s.sends, ENTRY)
  {
    RefusedAgainReached();
    CommitPasses(RefusedAgain());
    Extend(NO_FAULTS, false, RefusedAgain(), CommitVoid(ASKED));
  }

  // -------------------------------------------------------------------------
  // What both exceptions come down to
  // -------------------------------------------------------------------------

  /** No run of any row ends between its send and the record of it. */
  ghost predicate NothingLost(dedupes: bool, events: seq<Event>) {
    forall w: WritebackId :: !SomeRunLosesItsSend(dedupes, events, w)
  }

  /** With the connection idle, no settlement the card calls voidable has an entry in the books. */
  ghost predicate VoidableMeansNoEntry(s: State) {
    forall w: WritebackId :: s.job.Idle? && CardVoidable(s, w.decision) ==> !Holds(s.sends, w)
  }

  /** No voided settlement has an entry in the books. */
  ghost predicate VoidedMeansNoEntry(s: State) {
    forall w: WritebackId :: w.decision in s.voided ==> !Holds(s.sends, w)
  }

  /**
   Over every run, with a ledger and a runtime that keep every promise, what the card calls voidable
   has no entry exactly when no run may be lost between its send and the record of it.
   */
  lemma VoidableIsSafeExactly(mayLose: bool)
    ensures (forall events :: AllowedRun(NO_FAULTS, false, events) && (mayLose || NothingLost(false, events)) ==>
              VoidableMeansNoEntry(Run(false, events))) <==> !mayLose
  {
    if mayLose {
      CardVoidableWithAnEntry();
      var s :| Reached(NO_FAULTS, false, s) && s.job.Idle? && CardVoidable(s, 0) && Holds(s.sends, ENTRY);
      var events :| AllowedRun(NO_FAULTS, false, events) && Run(false, events) == s;
      assert !VoidableMeansNoEntry(Run(false, events));
    } else {
      forall events, w: WritebackId | NothingLost(false, events) && Run(false, events).job.Idle? && CardVoidable(Run(false, events), w.decision)
        ensures !Holds(Run(false, events).sends, w)
      {
        CardVoidableExactly(false, events, w);
      }
    }
  }

  /** And so with what is voided, although the ledger is asked first: it too has no entry exactly then. */
  lemma VoidedIsSafeExactly(mayLose: bool)
    ensures (forall events :: AllowedRun(NO_FAULTS, false, events) && (mayLose || NothingLost(false, events)) ==>
              VoidedMeansNoEntry(Run(false, events))) <==> !mayLose
  {
    if mayLose {
      VoidedWithAnEntry();
      var s :| Reached(NO_FAULTS, false, s) && 0 in s.voided && Holds(s.sends, ENTRY);
      var events :| AllowedRun(NO_FAULTS, false, events) && Run(false, events) == s;
      assert !VoidedMeansNoEntry(Run(false, events));
    } else {
      forall events, w: WritebackId | NothingLost(false, events) && w.decision in Run(false, events).voided
        ensures !Holds(Run(false, events).sends, w)
      {
        VoidedHoldsExactly(false, events, w);
      }
    }
  }
}
