/**
 A void the store could check: under its lock, whether the entry's recorded attempts are still those
 that stood when the ledger answered.
 */
module PostingGuard {
  import opened Posting
  import opened PostingFaults
  import opened PostingVoids

  function EntryOf(d: nat): WritebackId {
    WritebackId(d, JournalEntry)
  }

  /** No attempt of the entry was recorded since the ledger answered. */
  predicate Unchanged(rows: map<WritebackId, Row>, a: Asked) {
    EntryOf(a.decision) in rows && rows[EntryOf(a.decision)].attempts == a.attempts
  }

  // -------------------------------------------------------------------------
  // What the entry's attempts tell of its sends
  // -------------------------------------------------------------------------

  /** A failed entry with no more attempts than at the answer has been sent nothing since. */
  predicate GuardInv(rows: map<WritebackId, Row>, sends: seq<SendMade>, a: Asked) {
    var e := EntryOf(a.decision);
    e in rows && |a.attempts| <= |rows[e].attempts| &&
    (|a.attempts| == |rows[e].attempts| && rows[e].status.Failed? ==>
      forall i: nat | i < |sends| :: sends[i].w.decision == a.decision ==> i < a.sendsThen)
  }

  predicate GuardsInv(s: State) {
    (forall a :: a in s.asked ==> GuardInv(s.rows, s.sends, a)) &&
    (forall d :: d in s.voided ==> s.voided[d] in s.asked && s.voided[d].decision == d)
  }

  lemma GuardsSendKept(s: State, reply: Reply)
    requires Inv(s) && GuardsInv(s) && s.job.Running? && s.job.at.AtSend?
    ensures GuardsInv(SendStep(s, reply))
  {
    var t := SendStep(s, reply);
    forall a | a in t.asked ensures GuardInv(t.rows, t.sends, a) {
      assert GuardInv(s.rows, s.sends, a);
      SendKeepsGuard(s, t.sends[|s.sends|], a);
    }
  }

  lemma SendKeepsGuard(s: State, made: SendMade, a: Asked)
    requires JobInv(s) && s.job.Running? && s.job.at.AtSend? && made.w == s.job.w && GuardInv(s.rows, s.sends, a)
    ensures GuardInv(s.rows, s.sends + [made], a)
  {
    if s.job.w.decision == a.decision {
      assert !s.rows[EntryOf(a.decision)].status.Failed?;
    }
  }

  lemma GuardsRecordKept(s: State, stored: bool)
    requires Inv(s) && GuardsInv(s) && s.job.Running? && s.job.at.AtRecord?
    ensures GuardsInv(RecordStep(s, stored))
  {
    var t := RecordStep(s, stored);
    forall i: nat | i < |t.sends| ensures t.sends[i].w == s.sends[i].w {}
    forall a | a in t.asked ensures GuardInv(t.rows, t.sends, a) { assert GuardInv(s.rows, s.sends, a); }
  }

  lemma GuardsRowsKept(s: State, e: Event)
    requires GuardsInv(s) && (e.InsertRow? || e.PressRetry?)
    ensures GuardsInv(Step(s, e))
  {
    var t := Step(s, e);
    forall a | a in t.asked ensures GuardInv(t.rows, t.sends, a) { assert GuardInv(s.rows, s.sends, a); }
  }

  lemma GuardsOtherKept(s: State, e: Event)
    requires GuardsInv(s) && (e.LateLanding? || e.AskLedger? || e.CommitVoid?)
    ensures GuardsInv(Step(s, e))
  {
    var t := Step(s, e);
    forall a | a in t.asked ensures GuardInv(t.rows, t.sends, a) {
      if a in s.asked { assert GuardInv(s.rows, s.sends, a); }
    }
  }

  lemma GuardsStepKept(s: State, e: Event)
    requires Inv(s) && GuardsInv(s)
    ensures GuardsInv(Step(s, e))
  {
    match e
    case Send(reply) =>
      if s.job.Running? && s.job.at.AtSend? { GuardsSendKept(s, reply); } else { JobStepsLeaveStore(s, e); }
    case Record(stored) =>
      if s.job.Running? && s.job.at.AtRecord? { GuardsRecordKept(s, stored); } else { JobStepsLeaveStore(s, e); }
    case InsertRow(w) => GuardsRowsKept(s, e);
    case PressRetry(w, queued) => GuardsRowsKept(s, e);
    case LateLanding(i) => GuardsOtherKept(s, e);
    case AskLedger(d) => GuardsOtherKept(s, e);
    case CommitVoid(a) => GuardsOtherKept(s, e);
    case _ => JobStepsLeaveStore(s, e);
  }

  lemma {:induction false} EveryRunKeepsGuards(dedupes: bool, events: seq<Event>)
    ensures GuardsInv(Run(dedupes, events))
  {
    if events != [] {
      var before := events[..|events| - 1];
      EveryRunKeepsGuards(dedupes, before);
      EveryRunKeeps(dedupes, before);
      GuardsStepKept(Run(dedupes, before), events[|events| - 1]);
    }
  }

  // -------------------------------------------------------------------------
  // A void on unchanged attempts
  // -------------------------------------------------------------------------

  /** No send of the decision was on its way when the ledger answered. */
  predicate NoneOnItsWay(sends: seq<SendMade>, a: Asked) {
    forall i: nat | i < |sends| :: i < a.sendsThen && i in a.inFlightThen ==> sends[i].w.decision != a.decision
  }

  lemma VoidedStateHoldsNothing(s: State, d: nat, w: WritebackId)
    requires Inv(s) && VoidsInv(s) && GuardsInv(s) && d in s.voided && w.decision == d
    requires Unchanged(s.rows, s.voided[d]) && NoneOnItsWay(s.sends, s.voided[d])
    ensures !Holds(s.sends, w)
  {
    var a := s.voided[d];
    assert GuardInv(s.rows, s.sends, a) && VoidedInv(s.rows, s.sends, d, a);
    forall i: nat | i < |s.sends| ensures !LandedFor(s.sends, i, w) {}
  }

  /** A voided decision's entry gets no more attempts, and its void stays. */
  lemma VoidedEntryIsFrozen(s: State, e: Event, d: nat)
    requires Inv(s) && d in s.voided
    ensures var t := Step(s, e);
            d in t.voided && t.voided[d] == s.voided[d] && EntryOf(d) in s.rows && EntryOf(d) in t.rows &&
            t.rows[EntryOf(d)].attempts == s.rows[EntryOf(d)].attempts
  {
    match e
    case Record(stored) =>
    case CommitVoid(a) =>
    case InsertRow(w) =>
    case PressRetry(w, queued) =>
    case AskLedger(other) =>
    case LateLanding(i) =>
    case Send(reply) =>
    case _ => JobStepsLeaveStore(s, e);
  }

  lemma SendsStay(s: State, e: Event)
    ensures var t := Step(s, e);
            |s.sends| <= |t.sends| && forall i: nat | i < |s.sends| :: t.sends[i].w == s.sends[i].w
  {
  }

  /**
   Voided with the entry's attempts as they were when the ledger answered, and nothing of it on its
   way then, a settlement holds no entry: not now, and in no continuation.
   */
  lemma UnchangedVoidHoldsNothing(dedupes: bool, events: seq<Event>, more: seq<Event>, d: nat, w: WritebackId)
    requires d in Run(dedupes, events).voided && w.decision == d
    requires var s := Run(dedupes, events); Unchanged(s.rows, s.voided[d]) && NoneOnItsWay(s.sends, s.voided[d])
    ensures !Holds(Run(dedupes, events + more).sends, w)
  {
    UnchangedForEver(dedupes, events, more, d);
    EveryRunKeeps(dedupes, events + more);
    EveryRunKeepsVoids(dedupes, events + more);
    EveryRunKeepsGuards(dedupes, events + more);
    VoidedStateHoldsNothing(Run(dedupes, events + more), d, w);
  }

  lemma {:induction false} UnchangedForEver(dedupes: bool, events: seq<Event>, more: seq<Event>, d: nat)
    requires var s := Run(dedupes, events);
             d in s.voided && Unchanged(s.rows, s.voided[d]) && NoneOnItsWay(s.sends, s.voided[d])
    ensures var (s, t) := (Run(dedupes, events), Run(dedupes, events + more));
            d in t.voided && t.voided[d] == s.voided[d] && Unchanged(t.rows, t.voided[d]) && NoneOnItsWay(t.sends, t.voided[d])
  {
    if more == [] {
      assert events + more == events;
    } else {
      var n := |more| - 1;
      UnchangedForEver(dedupes, events, more[..n], d);
      assert events + more == events + more[..n] + [more[n]];
      RunSnoc(dedupes, events + more[..n], more[n]);
      EveryRunKeeps(dedupes, events + more[..n]);
      EveryRunKeepsVoids(dedupes, events + more[..n]);
      UnchangedKept(Run(dedupes, events + more[..n]), more[n], d);
    }
  }

  lemma UnchangedKept(s: State, e: Event, d: nat)
    requires Inv(s) && VoidsInv(s) && d in s.voided && Unchanged(s.rows, s.voided[d]) && NoneOnItsWay(s.sends, s.voided[d])
    ensures var t := Step(s, e);
            d in t.voided && t.voided[d] == s.voided[d] && Unchanged(t.rows, t.voided[d]) && NoneOnItsWay(t.sends, t.voided[d])
  {
    assert VoidedInv(s.rows, s.sends, d, s.voided[d]);
    VoidedEntryIsFrozen(s, e, d);
    SendsStay(s, e);
  }

  // -------------------------------------------------------------------------
  // The guard, and what it is worth
  // -------------------------------------------------------------------------

  /** A void that goes through does so on unchanged attempts. */
  predicate CommitGuarded(s: State, e: Event) {
    e.CommitVoid? && Step(s, e) != s ==> Unchanged(s.rows, e.asked)
  }

  predicate GuardedRun(dedupes: bool, events: seq<Event>) {
    forall k :: 0 <= k < |events| ==> CommitGuarded(Run(dedupes, events[..k]), events[k])
  }

  /** Where no send arrives late, none is on its way at any answer. */
  predicate NeverLate(s: State) {
    (forall i: nat | i < |s.sends| :: !s.sends[i].fate.InFlight?) && (forall a :: a in s.asked ==> a.inFlightThen == {})
  }

  lemma NeverLateKept(f: Faults, s: State, e: Event)
    requires NeverLate(s) && !f.sendsArriveLate && Allowed(f, s, e)
    ensures NeverLate(Step(s, e))
  {
    match e
    case Send(reply) => if !(s.job.Running? && s.job.at.AtSend?) { JobStepsLeaveStore(s, e); }
    case Record(stored) => if !(s.job.Running? && s.job.at.AtRecord?) { JobStepsLeaveStore(s, e); }
    case InsertRow(w) =>
    case PressRetry(w, queued) =>
    case LateLanding(i) =>
    case AskLedger(d) => assert StillInFlight(s.sends) == {};
    case CommitVoid(a) =>
    case _ => JobStepsLeaveStore(s, e);
  }

  ghost predicate AllUnchanged(s: State) {
    forall d :: d in s.voided ==> s.voided[d].decision == d && Unchanged(s.rows, s.voided[d])
  }

  lemma AllUnchangedKept(s: State, e: Event)
    requires Inv(s) && AllUnchanged(s) && CommitGuarded(s, e)
    ensures AllUnchanged(Step(s, e))
  {
    var t := Step(s, e);
    forall d | d in t.voided ensures t.voided[d].decision == d && Unchanged(t.rows, t.voided[d]) {
      if d in s.voided { VoidedEntryIsFrozen(s, e, d); } else { VoidedNow(s, e, d); }
    }
  }

  lemma VoidedNow(s: State, e: Event, d: nat)
    requires d !in s.voided && d in Step(s, e).voided
    ensures e.CommitVoid? && Step(s, e) != s && e.asked.decision == d && Step(s, e).voided[d] == e.asked && Step(s, e).rows == s.rows
  {
    match e
    case Send(reply) =>
    case Record(stored) =>
    case InsertRow(w) =>
    case PressRetry(w, queued) =>
    case LateLanding(i) =>
    case AskLedger(other) =>
    case CommitVoid(a) =>
    case _ => JobStepsLeaveStore(s, e);
  }

  lemma GuardedPrefix(f: Faults, events: seq<Event>)
    requires events != [] && AllowedRun(f, false, events) && GuardedRun(false, events)
    ensures var (before, e) := (events[..|events| - 1], events[|events| - 1]);
            AllowedRun(f, false, before) && GuardedRun(false, before) &&
            Allowed(f, Run(false, before), e) && CommitGuarded(Run(false, before), e)
  {
    var before := events[..|events| - 1];
    forall k | 0 <= k < |before|
      ensures Allowed(f, Run(false, before[..k]), before[k]) && CommitGuarded(Run(false, before[..k]), before[k])
    {
      assert before[..k] == events[..k];
    }
  }

  lemma {:induction false} GuardedRunKeeps(f: Faults, events: seq<Event>)
    requires AllowedRun(f, false, events) && GuardedRun(false, events) && !f.sendsArriveLate
    ensures AllUnchanged(Run(false, events)) && NeverLate(Run(false, events))
  {
    if events != [] {
      var before := events[..|events| - 1];
      GuardedPrefix(f, events);
      GuardedRunKeeps(f, before);
      EveryRunKeeps(false, before);
      AllUnchangedKept(Run(false, before), events[|events| - 1]);
      NeverLateKept(f, Run(false, before), events[|events| - 1]);
    }
  }

  lemma GuardedVoidHoldsNothing(f: Faults, events: seq<Event>, w: WritebackId)
    requires AllowedRun(f, false, events) && GuardedRun(false, events) && !f.sendsArriveLate
    requires w.decision in Run(false, events).voided
    ensures !Holds(Run(false, events).sends, w)
  {
    GuardedRunKeeps(f, events);
    EveryRunKeepsGuards(false, events);
    var a := Run(false, events).voided[w.decision];
    assert a.inFlightThen == {};
    assert events + [] == events;
    UnchangedVoidHoldsNothing(false, events, [], w.decision, w);
  }

  // -------------------------------------------------------------------------
  // Why it takes both
  // -------------------------------------------------------------------------

  lemma MoreFaultsAllowMore(f: Faults, events: seq<Event>)
    requires AllowedRun(NO_FAULTS, false, events)
    ensures AllowedRun(f, false, events)
  {
    forall k | 0 <= k < |events| ensures Allowed(f, Run(false, events[..k]), events[k]) {
      assert Allowed(NO_FAULTS, Run(false, events[..k]), events[k]);
    }
  }

  lemma GuardedSnoc(before: seq<Event>, e: Event)
    requires GuardedRun(false, before) && CommitGuarded(Run(false, before), e)
    ensures GuardedRun(false, before + [e])
  {
    var longer := before + [e];
    forall k | 0 <= k < |longer| ensures CommitGuarded(Run(false, longer[..k]), longer[k]) {
      if k < |before| { assert longer[..k] == before[..k]; } else { assert longer[..k] == before; }
    }
  }

  /** A run that has voided nothing has guarded every void. */
  lemma {:induction false} NothingVoidedIsGuarded(events: seq<Event>)
    requires Run(false, events).voided == map[]
    ensures GuardedRun(false, events)
  {
    if events != [] {
      var (before, e) := (events[..|events| - 1], events[|events| - 1]);
      assert events == before + [e];
      NothingVoidedStep(before, e);
      NothingVoidedIsGuarded(before);
      GuardedSnoc(before, e);
    }
  }

  lemma NothingVoidedStep(before: seq<Event>, e: Event)
    requires Run(false, before + [e]).voided == map[]
    ensures Run(false, before).voided == map[] && CommitGuarded(Run(false, before), e)
  {
    RunSnoc(false, before, e);
    NoVoidNoCommit(Run(false, before), e);
  }

  lemma NoVoidNoCommit(s: State, e: Event)
    requires Step(s, e).voided == map[]
    ensures s.voided == map[] && CommitGuarded(s, e)
  {
    match e
    case CommitVoid(a) => assert Step(s, e) == s || a.decision in Step(s, e).voided;
    case Send(reply) =>
    case Record(stored) =>
    case InsertRow(w) =>
    case PressRetry(w, queued) =>
    case LateLanding(i) =>
    case AskLedger(other) =>
    case _ => JobStepsLeaveStore(s, e);
  }

  /** The first send is on its way when its run is lost; the retry says that it sent nothing. */
  function LateThenRefused(): State {
    LateThenPressed().(window := {First(ENTRY), Fresh(0)}, rows := map[ENTRY := Row(Failed, [InvoiceLookupFailed])])
  }

  lemma LateThenRefusedReached(f: Faults)
    requires f.sendsArriveLate
    ensures Reached(f, false, LateThenRefused())
  {
    LateThenPressedReached(f);
    var s := LateThenPressed();
    RunFailsBeforeSend(f, false, s, Request(ENTRY, Fresh(0), true));
    assert [] + [InvoiceLookupFailed] == [InvoiceLookupFailed];
    assert s.window + {Fresh(0)} == LateThenRefused().window;
    assert s.rows[ENTRY := Row(Failed, [InvoiceLookupFailed])] == LateThenRefused().rows;
  }

  const ASKED_WHILE_LATE := Asked(0, {ENTRY}, 1, {0}, [InvoiceLookupFailed])

  lemma AskWhileLate(s: State)
    requires s == LateThenRefused()
    ensures Step(s, AskLedger(0)) == s.(asked := {ASKED_WHILE_LATE})
  {
    assert NothingSent(s.rows[ENTRY]);
    assert RowsOf(s, 0) == {ENTRY};
    assert StillInFlight(s.sends) == {0};
  }

  lemma AskedWhileLateReached(f: Faults)
    requires f.sendsArriveLate
    ensures Reached(f, false, LateThenRefused().(asked := {ASKED_WHILE_LATE}))
  {
    LateThenRefusedReached(f);
    Extend(f, false, LateThenRefused(), AskLedger(0));
    AskWhileLate(LateThenRefused());
  }

  lemma CommitThenLand(s: State)
    requires s == LateThenRefused().(asked := {ASKED_WHILE_LATE})
    ensures CommitGuarded(s, CommitVoid(ASKED_WHILE_LATE))
    ensures var t := Step(s, CommitVoid(ASKED_WHILE_LATE));
            t == s.(voided := map[0 := ASKED_WHILE_LATE]) && 0 in Step(t, LateLanding(0)).voided &&
            Holds(Step(t, LateLanding(0)).sends, ENTRY)
  {
    assert NothingSent(s.rows[ENTRY]);
    assert RowsOf(s, 0) == {ENTRY};
    var u := Step(s.(voided := map[0 := ASKED_WHILE_LATE]), LateLanding(0));
    assert !Holds(s.sends, ENTRY);
    assert LandedFor(u.sends, 0, ENTRY);
  }

  lemma GuardedTwice(f: Faults, events: seq<Event>, e1: Event, e2: Event)
    requires AllowedRun(f, false, events) && GuardedRun(false, events)
    requires var s := Run(false, events);
             Allowed(f, s, e1) && CommitGuarded(s, e1) && Allowed(f, Step(s, e1), e2) && CommitGuarded(Step(s, e1), e2)
    ensures AllowedRun(f, false, events + [e1, e2]) && GuardedRun(false, events + [e1, e2])
    ensures Run(false, events + [e1, e2]) == Step(Step(Run(false, events), e1), e2)
  {
    RunSnoc(false, events, e1);
    RunSnoc(false, events + [e1], e2);
    var longer := events + [e1, e2];
    assert longer == events + [e1] + [e2];
    forall k | 0 <= k < |longer|
      ensures Allowed(f, Run(false, longer[..k]), longer[k]) && CommitGuarded(Run(false, longer[..k]), longer[k])
    {
      if k < |events| { assert longer[..k] == events[..k]; }
      else if k == |events| { assert longer[..k] == events; }
      else { assert longer[..k] == events + [e1]; }
    }
  }

  /** With sends that arrive late, even a void on unchanged attempts can leave an entry. */
  lemma GuardedVoidWithAnEntry(f: Faults)
    requires f.sendsArriveLate
    ensures exists events :: AllowedRun(f, false, events) && GuardedRun(false, events) && !VoidedMeansNoEntry(Run(false, events))
  {
    AskedWhileLateReached(f);
    var s := LateThenRefused().(asked := {ASKED_WHILE_LATE});
    var events :| AllowedRun(f, false, events) && Run(false, events) == s;
    NothingVoidedIsGuarded(events);
    CommitThenLand(s);
    GuardedTwice(f, events, CommitVoid(ASKED_WHILE_LATE), LateLanding(0));
    assert ENTRY.decision == 0;
  }

  /**
   Over every run, no voided settlement has an entry in the books exactly when voids go through only
   on unchanged attempts and no send arrives after its run was told that it failed.
   */
  lemma VoidGuardExactly(f: Faults, guarded: bool)
    ensures (forall events :: AllowedRun(f, false, events) && (guarded ==> GuardedRun(false, events)) ==>
              VoidedMeansNoEntry(Run(false, events))) <==> guarded && !f.sendsArriveLate
  {
    if guarded && !f.sendsArriveLate {
      forall events, w: WritebackId |
        AllowedRun(f, false, events) && GuardedRun(false, events) && w.decision in Run(false, events).voided
        ensures !Holds(Run(false, events).sends, w)
      {
        GuardedVoidHoldsNothing(f, events, w);
      }
    } else if f.sendsArriveLate {
      GuardedVoidWithAnEntry(f);
    } else {
      VoidedWithAnEntry();
      var s :| Reached(NO_FAULTS, false, s) && 0 in s.voided && Holds(s.sends, ENTRY);
      var events :| AllowedRun(NO_FAULTS, false, events) && Run(false, events) == s;
      MoreFaultsAllowMore(f, events);
      assert ENTRY.decision == 0;
    }
  }
}
