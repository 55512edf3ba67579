/**
 What a document's reads cost: paid reads that succeeded, failed or are in progress, when one is paid
 for twice, and a reading nobody makes again.
 */
module PaidReads {
  import opened ReadAttach

  /** Every paid read is one that succeeded, one that failed or the one in progress. */
  lemma PaidReadsAddUp(arrivedHeld: bool, events: seq<Event>)
    ensures var s := Run(arrivedHeld, events);
            s.succeeded + s.failed <= s.paid <= s.succeeded + s.failed + 1 &&
            (s.claim.None? ==> s.paid == s.succeeded + s.failed)
  {
    EveryRunKeeps(arrivedHeld, events);
  }

  /** What a recorded reading settles for every later request, whatever it names. */
  predicate Answerable(f: Facts) {
    f.recorded.Some? && (f.links != {} || f.hold || !f.recorded.value.Notice?)
  }

  /** A read of this request never ends with a notice on no case and not held. */
  predicate Settles(arrivedHeld: bool, target: Option<nat>, mayOpen: bool) {
    arrivedHeld || target.Some? || mayOpen
  }

  predicate PointInv(f: Facts, at: Point) {
    match at
    case AtRecord(t, next) =>
      (next.ThenDone? ==> f.links != {} || !t.Notice?) && (next.ThenLines? ==> t.Remittance?)
    case AtHold => f.recorded.Some?
    case AtLines => f.recorded == Some(Remittance)
    case AtLink => f.recorded.Some?
    case AtFile => f.recorded.Some?
    case _ => true
  }

  /** A run that could leave a notice on no case came when a reading was recorded, and reads nothing itself. */
  predicate SettlesOrOnlyAsks(f: Facts, r: Delivery) {
    Settles(f.arrivedHeld, r.request.target, r.request.mayOpen) ||
    (f.recorded.Some? && (r.phase.Holding? ==> !Reading(r.phase.at)))
  }

  predicate HolderInv(s: State, r: Delivery) {
    SettlesOrOnlyAsks(s.facts, r) &&
    (r.phase.Holding? ==> PointInv(s.facts, r.phase.at) && (Reading(r.phase.at) ==> s.succeeded == 0))
  }

  predicate OneSuccessInv(s: State) {
    s.succeeded <= 1 && (s.succeeded == 1 ==> Answerable(s.facts)) &&
    forall i: nat | i < |s.runs| :: HolderInv(s, s.runs[i])
  }

  lemma ActSettles(f: Facts, r: Delivery, e: Event)
    requires InTurn(r, e) && RunInv(f.links, r) && SettlesOrOnlyAsks(f, r)
    requires PointInv(f, r.phase.at)
    ensures var x := Act(f, r, e);
            SettlesOrOnlyAsks(x.facts, r.(phase := x.phase)) && (f.recorded.Some? ==> x.facts.recorded.Some?) &&
            (x.phase.Holding? ==> PointInv(x.facts, x.phase.at)) &&
            (x.phase.Holding? && Reading(x.phase.at) && !Reading(r.phase.at) ==> !Answerable(f)) &&
            (Answerable(f) && !Reading(r.phase.at) ==> Answerable(x.facts)) &&
            (x.phase.Done? && (x.pays || PastPay(r.phase.at)) ==> Answerable(x.facts)) &&
            (x.pays ==> Reading(r.phase.at))
  {
  }

  lemma ClaimStepKeepsOneSuccess(s: State, e: Event)
    requires Inv(s) && OneSuccessInv(s) && ClaimEvent(e)
    ensures OneSuccessInv(ClaimStep(s, e))
  {
    var t := ClaimStep(s, e);
    if e.i < |s.runs| && InTurn(s.runs[e.i], e) {
      var r := s.runs[e.i];
      assert RunInv(s.facts.links, r) && HolderInv(s, r);
      ActSettles(s.facts, r, e);
      ActKeepsRun(s.facts, r, e);
      forall i: nat | i < |t.runs| ensures HolderInv(t, t.runs[i]) {
        assert HolderInv(s, s.runs[i]);
      }
    }
  }

  lemma PersonStepKeepsOneSuccess(s: State, e: Event)
    requires Inv(s) && OneSuccessInv(s) && (e.PersonAttaches? || e.Release?)
    ensures OneSuccessInv(Step(s, e))
  {
    var t := Step(s, e);
    forall i: nat | i < |t.runs| ensures HolderInv(t, t.runs[i]) {
      assert HolderInv(s, s.runs[i]);
    }
  }

  lemma QueueStepKeepsOneSuccess(s: State, e: Event)
    requires OneSuccessInv(s) && (e.Upload? || e.ReDrive? || e.Expire? || e.Begin?)
    requires e.Upload? || e.ReDrive? ==> Settles(s.facts.arrivedHeld, e.target, e.mayOpen) || s.facts.recorded.Some?
    ensures OneSuccessInv(Step(s, e))
  {
    var t := Step(s, e);
    forall i: nat | i < |t.runs| ensures HolderInv(t, t.runs[i]) {
      if i < |s.runs| { assert HolderInv(s, s.runs[i]); }
    }
  }

  /**
   A request that could leave a notice on no case is for a document already read, unless
   `unread` says that it may be sent for any.
   */
  predicate Admitted(unread: bool, f: Facts, e: Event) {
    e.Upload? || e.ReDrive? ==> unread || Settles(f.arrivedHeld, e.target, e.mayOpen) || f.recorded.Some?
  }

  predicate AdmittedRun(arrivedHeld: bool, unread: bool, events: seq<Event>) {
    forall k :: 0 <= k < |events| ==> Admitted(unread, Run(arrivedHeld, events[..k]).facts, events[k])
  }

  lemma AdmittedPrefix(arrivedHeld: bool, unread: bool, events: seq<Event>)
    requires events != [] && AdmittedRun(arrivedHeld, unread, events)
    ensures AdmittedRun(arrivedHeld, unread, events[..|events| - 1])
    ensures Admitted(unread, Run(arrivedHeld, events[..|events| - 1]).facts, events[|events| - 1])
  {
    var before := events[..|events| - 1];
    forall k | 0 <= k < |before| ensures Admitted(unread, Run(arrivedHeld, before[..k]).facts, before[k]) {
      assert before[..k] == events[..k];
    }
  }

  lemma {:induction false} EveryRunKeepsOneSuccess(arrivedHeld: bool, unread: bool, events: seq<Event>)
    requires (arrivedHeld || !unread) && AdmittedRun(arrivedHeld, unread, events)
    ensures OneSuccessInv(Run(arrivedHeld, events))
  {
    if events != [] {
      var before := events[..|events| - 1];
      AdmittedPrefix(arrivedHeld, unread, events);
      EveryRunKeepsOneSuccess(arrivedHeld, unread, before);
      EveryRunKeeps(arrivedHeld, before);
      OneSuccessStepKept(Run(arrivedHeld, before), events[|events| - 1]);
    }
  }

  lemma OneSuccessStepKept(s: State, e: Event)
    requires Inv(s) && OneSuccessInv(s)
    requires e.Upload? || e.ReDrive? ==> Settles(s.facts.arrivedHeld, e.target, e.mayOpen) || s.facts.recorded.Some?
    ensures OneSuccessInv(Step(s, e))
  {
    if ClaimEvent(e) { ClaimStepKeepsOneSuccess(s, e); }
    else if e.PersonAttaches? || e.Release? { PersonStepKeepsOneSuccess(s, e); }
    else { QueueStepKeepsOneSuccess(s, e); }
  }

  // -------------------------------------------------------------------------
  // The requests the app sends
  // -------------------------------------------------------------------------

  /**
   An upload, and a document a portal read or an email brought, may always open a case. "Read again"
   names no case, and forbids opening one only of a document it found already read.
   */
  predicate AsSent(f: Facts, e: Event) {
    (e.Upload? ==> e.mayOpen) && (e.ReDrive? ==> e.target.None? && (e.mayOpen || f.recorded.Some?))
  }

  predicate SentRun(arrivedHeld: bool, events: seq<Event>) {
    forall k :: 0 <= k < |events| ==> AsSent(Run(arrivedHeld, events[..k]).facts, events[k])
  }

  /**
   Over every run of the requests the app sends, however they are delivered, retried and lost, a
   document has at most one successful paid read and its paid reads are at most one more than the
   failed ones.
   */
  lemma OneSuccessfulPaidRead(arrivedHeld: bool, events: seq<Event>)
    requires SentRun(arrivedHeld, events)
    ensures var s := Run(arrivedHeld, events); s.succeeded <= 1 && s.paid <= 1 + s.failed
  {
    forall k | 0 <= k < |events| ensures Admitted(false, Run(arrivedHeld, events[..k]).facts, events[k]) {
      assert AsSent(Run(arrivedHeld, events[..k]).facts, events[k]);
    }
    EveryRunKeepsOneSuccess(arrivedHeld, false, events);
    PaidReadsBounded(arrivedHeld, false, events);
  }

  // -------------------------------------------------------------------------
  // What that discipline is for
  // -------------------------------------------------------------------------

  /** A request that may open no case reads a notice: recorded, on no case, not held. */
  function ReadAndLeft(): State {
    State(Facts(false, Some(Notice), {}, false), None, [Delivery(Request(None, false, ForDocument), 1, 1, Done(ReadIt))],
          {ForDocument}, 0, 1, 1, 0)
  }

  const LEAVES_A_NOTICE: seq<Event> :=
    [Upload(None, false), Begin(0, None), Guard(0), Resolve(0, None), Pay(0, Read(Notice, false)), Record(0, None)]

  /** The first steps of the first run, up to its model calls. */
  function FirstStates(arrivedHeld: bool, mayOpen: bool): seq<State> {
    var r := Delivery(Request(None, mayOpen, ForDocument), 1, 0, Waiting);
    var s1 := Init(arrivedHeld).(window := {ForDocument}, runs := [r.(attempts := 0)]);
    var s2 := s1.(claim := Some(0), runs := [r.(phase := Holding(AtGuard))]);
    var s3 := s2.(runs := [r.(phase := Holding(AtResolve))]);
    var s4 := s2.(runs := [r.(phase := Holding(AtPay))]);
    [Init(arrivedHeld), s1, s2, s3, s4]
  }

  lemma FirstTwoSteps(arrivedHeld: bool, mayOpen: bool)
    ensures var s := FirstStates(arrivedHeld, mayOpen); Step(s[0], Upload(None, mayOpen)) == s[1] && Step(s[1], Begin(0, None)) == s[2]
  {
  }

  lemma NextTwoSteps(arrivedHeld: bool, mayOpen: bool)
    ensures var s := FirstStates(arrivedHeld, mayOpen); Step(s[2], Guard(0)) == s[3] && Step(s[3], Resolve(0, None)) == s[4]
  {
  }

  function LeavingStates(): seq<State> {
    var s := FirstStates(false, false)[4];
    var r := s.runs[0].(paid := 1, phase := Holding(AtRecord(Notice, ThenDone)));
    FirstStates(false, false) + [s.(paid := 1, runs := [r]), ReadAndLeft()]
  }

  lemma LeavingLastSteps()
    ensures var s := LeavingStates();
            Step(s[4], Pay(0, Read(Notice, false))) == s[5] && Step(s[5], Record(0, None)) == s[6]
  {
  }

  lemma ReadAndLeftReached()
    ensures Run(false, LEAVES_A_NOTICE) == ReadAndLeft()
  {
    FirstTwoSteps(false, false);
    NextTwoSteps(false, false);
    LeavingLastSteps();
    RunThrough(false, [], LEAVES_A_NOTICE, LeavingStates());
    assert [] + LEAVES_A_NOTICE == LEAVES_A_NOTICE;
  }

  const READS_IT_AGAIN: seq<Event> :=
    [ReDrive(None, true), Begin(1, None), Guard(1), Resolve(1, None), Pay(1, Read(Notice, false)), Open(1, 7, None), Record(1, None)]

  function SecondStates(): seq<State> {
    var s0 := ReadAndLeft();
    var d := s0.runs[0];
    var r := Delivery(Request(None, true, Fresh(0)), 1, 0, Waiting);
    var s1 := s0.(window := s0.window + {Fresh(0)}, nextFresh := 1, runs := [d, r.(attempts := 0)]);
    var s2 := s1.(claim := Some(1), runs := [d, r.(phase := Holding(AtGuard))]);
    var s3 := s2.(runs := [d, r.(phase := Holding(AtResolve))]);
    var s4 := s2.(runs := [d, r.(phase := Holding(AtPay))]);
    var s5 := s2.(paid := 2, runs := [d, r.(paid := 1, phase := Holding(AtOpen))]);
    var s6 := s5.(facts := s5.facts.(links := {7}), runs := [d, r.(paid := 1, phase := Holding(AtRecord(Notice, ThenDone)))]);
    [s0, s1, s2, s3, s4, s5, s6, Step(s6, Record(1, None))]
  }

  lemma SecondFirstSteps()
    ensures var s := SecondStates();
            Step(s[0], ReDrive(None, true)) == s[1] && Step(s[1], Begin(1, None)) == s[2] && Step(s[2], Guard(1)) == s[3]
  {
  }

  lemma SecondLastSteps()
    ensures var s := SecondStates();
            Step(s[3], Resolve(1, None)) == s[4] && Step(s[4], Pay(1, Read(Notice, false))) == s[5]
  {
  }

  lemma SecondOpens()
    ensures var s := SecondStates(); Step(s[5], Open(1, 7, None)) == s[6] && s[7].succeeded == 2
  {
  }

  /** So a document could be read and paid for twice, had the first request been one no sender makes. */
  lemma ReadTwice()
    ensures Run(false, LEAVES_A_NOTICE + READS_IT_AGAIN).succeeded == 2
  {
    ReadAndLeftReached();
    SecondFirstSteps();
    SecondLastSteps();
    SecondOpens();
    RunThrough(false, LEAVES_A_NOTICE, READS_IT_AGAIN, SecondStates());
  }

  lemma ReadTwiceIsAdmitted()
    ensures AdmittedRun(false, true, LEAVES_A_NOTICE + READS_IT_AGAIN)
  {
  }

  /**
   A document has at most one successful paid read over every run exactly when its arrival holds
   it, or no unread document is asked for by a request that may leave its notice on no case.
   */
  lemma OneSuccessfulReadExactly(arrivedHeld: bool, unread: bool)
    ensures (forall events :: AdmittedRun(arrivedHeld, unread, events) ==> Run(arrivedHeld, events).succeeded <= 1) <==>
            (arrivedHeld || !unread)
  {
    if arrivedHeld || !unread {
      forall events | AdmittedRun(arrivedHeld, unread, events) ensures Run(arrivedHeld, events).succeeded <= 1 {
        EveryRunKeepsOneSuccess(arrivedHeld, unread, events);
      }
    } else {
      ReadTwice();
      ReadTwiceIsAdmitted();
    }
  }

  /** Where that holds, paid reads are bounded by one plus the failed ones. */
  lemma PaidReadsBounded(arrivedHeld: bool, unread: bool, events: seq<Event>)
    requires (arrivedHeld || !unread) && AdmittedRun(arrivedHeld, unread, events)
    ensures var s := Run(arrivedHeld, events); s.paid <= 1 + s.failed
  {
    EveryRunKeeps(arrivedHeld, events);
    EveryRunKeepsOneSuccess(arrivedHeld, unread, events);
    var s := Run(arrivedHeld, events);
    if InProgress(s.claim, s.runs) == 1 {
      assert HolderInv(s, s.runs[s.claim.value]);
    }
  }

  // -------------------------------------------------------------------------
  // A reading nobody makes again
  // -------------------------------------------------------------------------

  /** A recorded reading that answers every later request. */
  predicate RecordedForGood(f: Facts) {
    f.recorded.Some? && !f.recorded.value.Notice?
  }

  /** The run that holds the claim stands here. */
  predicate StandsAt(s: State, at: Point) {
    s.claim.Some? && s.claim.value < |s.runs| && s.runs[s.claim.value].phase == Holding(at)
  }

  /** What is left to do of a reading once it is recorded. */
  predicate Leftover(at: Point) {
    at.AtHold? || at.AtLines? || at.AtLink?
  }

  /** The claim's holder reads only while nothing but a notice is recorded. */
  predicate ReaderInv(s: State) {
    ClaimInv(s.claim, s.runs) &&
    forall i: nat | i < |s.runs| :: s.runs[i].phase.Holding? && RecordedForGood(s.facts) ==> DoesNotRead(s.runs[i].phase.at)
  }

  predicate DoesNotRead(at: Point) {
    Leftover(at) || at.AtGuard? || at.AtFile?
  }

  lemma ActReads(f: Facts, r: Delivery, e: Event)
    requires InTurn(r, e) && (RecordedForGood(f) ==> DoesNotRead(r.phase.at))
    ensures var x := Act(f, r, e);
            (RecordedForGood(x.facts) && x.phase.Holding? ==> DoesNotRead(x.phase.at)) &&
            (RecordedForGood(f) ==>
              x.facts.recorded == f.recorded && !x.pays && (x.phase.Holding? ==> !Leftover(x.phase.at)) &&
              (x.facts.hold && !f.hold ==> r.phase.at.AtHold?))
  {
  }

  lemma ReaderStepKept(s: State, e: Event)
    requires ReaderInv(s)
    ensures ReaderInv(Step(s, e))
  {
    if ClaimEvent(e) && e.i < |s.runs| && InTurn(s.runs[e.i], e) { ActReads(s.facts, s.runs[e.i], e); }
  }

  lemma {:induction false} EveryReaderReads(arrivedHeld: bool, events: seq<Event>)
    ensures ReaderInv(Run(arrivedHeld, events))
  {
    if events != [] {
      EveryReaderReads(arrivedHeld, events[..|events| - 1]);
      ReaderStepKept(Run(arrivedHeld, events[..|events| - 1]), events[|events| - 1]);
    }
  }

  /** After such a reading nobody pays, nobody comes to a leftover, and only its own run places the hold. */
  lemma RecordedStepKept(s: State, e: Event)
    requires ReaderInv(s) && RecordedForGood(s.facts)
    ensures var t := Step(s, e);
            t.paid == s.paid && t.facts.recorded == s.facts.recorded &&
            (forall at :: Leftover(at) && StandsAt(t, at) ==> StandsAt(s, at)) &&
            (t.facts.hold ==> s.facts.hold || StandsAt(s, AtHold))
  {
    if ClaimEvent(e) && e.i < |s.runs| && InTurn(s.runs[e.i], e) { ActReads(s.facts, s.runs[e.i], e); }
  }

  /** In every continuation: no more is paid, and a leftover somebody stands at was stood at already. */
  lemma {:induction false} OnlyItsOwnRunFinishes(arrivedHeld: bool, events: seq<Event>, more: seq<Event>)
    requires RecordedForGood(Run(arrivedHeld, events).facts)
    ensures var (s, t) := (Run(arrivedHeld, events), Run(arrivedHeld, events + more));
            t.paid == s.paid && t.facts.recorded == s.facts.recorded &&
            (forall at :: Leftover(at) && StandsAt(t, at) ==> StandsAt(s, at)) &&
            (t.facts.hold ==> s.facts.hold || StandsAt(s, AtHold))
  {
    if more == [] {
      assert events + more == events;
    } else {
      var n := |more| - 1;
      OnlyItsOwnRunFinishes(arrivedHeld, events, more[..n]);
      assert events + more == events + more[..n] + [more[n]];
      RunSnoc(arrivedHeld, events + more[..n], more[n]);
      EveryReaderReads(arrivedHeld, events + more[..n]);
      RecordedStepKept(Run(arrivedHeld, events + more[..n]), more[n]);
    }
  }

  /**
   Once a reading other than a notice is recorded, some continuation comes to opening its lines, placing
   its hold or linking it after the read exactly when the run that recorded it stands there now. (An
   attachment's retry files it from the record instead, at another point.)
   */
  lemma FinishedLaterExactly(arrivedHeld: bool, events: seq<Event>, at: Point)
    requires RecordedForGood(Run(arrivedHeld, events).facts) && Leftover(at)
    ensures (exists more :: StandsAt(Run(arrivedHeld, events + more), at)) <==> StandsAt(Run(arrivedHeld, events), at)
  {
    forall more | StandsAt(Run(arrivedHeld, events + more), at) ensures StandsAt(Run(arrivedHeld, events), at) {
      OnlyItsOwnRunFinishes(arrivedHeld, events, more);
    }
    assert events + [] == events;
  }

  /** In particular it is held in some continuation exactly when it is held, or that run is about to hold it. */
  lemma HeldLaterExactly(arrivedHeld: bool, events: seq<Event>)
    requires RecordedForGood(Run(arrivedHeld, events).facts)
    ensures var s := Run(arrivedHeld, events);
            (exists more :: Run(arrivedHeld, events + more).facts.hold) <==> s.facts.hold || StandsAt(s, AtHold)
  {
    var s := Run(arrivedHeld, events);
    forall more | Run(arrivedHeld, events + more).facts.hold ensures s.facts.hold || StandsAt(s, AtHold) {
      OnlyItsOwnRunFinishes(arrivedHeld, events, more);
    }
    if s.facts.hold {
      assert events + [] == events;
    } else if StandsAt(s, AtHold) {
      RunSnoc(arrivedHeld, events, PlaceHold(s.claim.value, None));
    }
  }

  /**
   So once the claim is free such a reading has had its only read: whatever its run had not done by then,
   no continuation pays for it, opens its lines or holds it.
   */
  lemma RemittanceLinesAreNotResumed(arrivedHeld: bool, events: seq<Event>, more: seq<Event>)
    requires var s := Run(arrivedHeld, events); RecordedForGood(s.facts) && s.claim.None?
    ensures var (s, t) := (Run(arrivedHeld, events), Run(arrivedHeld, events + more));
            t.paid == s.paid && !StandsAt(t, AtLines) && !StandsAt(t, AtHold) && !StandsAt(t, AtLink) &&
            (t.facts.hold ==> s.facts.hold)
  {
    OnlyItsOwnRunFinishes(arrivedHeld, events, more);
  }

  /** A first run records a remittance and dies; its retry answers from the record. */
  const DIES_ONCE_RECORDED: seq<Event> :=
    [Upload(None, true), Begin(0, None), Guard(0), Resolve(0, None), Pay(0, Read(Remittance, false)), Record(0, None), Die(0),
     Begin(0, None), Guard(0)]

  function StrandingStates(arrivedHeld: bool): seq<State> {
    var s4 := FirstStates(arrivedHeld, true)[4];
    var r := s4.runs[0].(paid := 1);
    var next := if arrivedHeld then ThenHold else ThenLines;
    var s5 := s4.(paid := 1, runs := [r.(phase := Holding(AtRecord(Remittance, next)))]);
    var s6 := s5.(facts := s5.facts.(recorded := Some(Remittance)),
                  runs := [r.(phase := Holding(if arrivedHeld then AtHold else AtLines))]);
    var s7 := s6.(claim := None, failed := 1, runs := [r.(phase := Waiting)]);
    var s8 := s7.(claim := Some(0), runs := [r.(attempts := 2, phase := Holding(AtGuard))]);
    var s9 := s7.(runs := [r.(attempts := 2, phase := Done(AnsweredFromRecord))]);
    FirstStates(arrivedHeld, true) + [s5, s6, s7, s8, s9]
  }

  lemma StrandingFirstSteps(arrivedHeld: bool)
    ensures var (d, s) := (DIES_ONCE_RECORDED, StrandingStates(arrivedHeld));
            Step(s[4], d[4]) == s[5] && Step(s[5], d[5]) == s[6]
  {
  }

  lemma StrandingLastSteps(arrivedHeld: bool)
    ensures var (d, s) := (DIES_ONCE_RECORDED, StrandingStates(arrivedHeld));
            Step(s[6], d[6]) == s[7] && Step(s[7], d[7]) == s[8] && Step(s[8], d[8]) == s[9]
  {
  }

  lemma StrandingReached(arrivedHeld: bool)
    ensures Run(arrivedHeld, DIES_ONCE_RECORDED) == StrandingStates(arrivedHeld)[9]
  {
    FirstTwoSteps(arrivedHeld, true);
    NextTwoSteps(arrivedHeld, true);
    StrandingFirstSteps(arrivedHeld);
    StrandingLastSteps(arrivedHeld);
    var d := DIES_ONCE_RECORDED;
    assert [] + d == d;
    RunThrough(arrivedHeld, [], d, StrandingStates(arrivedHeld));
  }

  /** The retry of such a run ends successfully, with the remittance on no case and not held. */
  lemma RemittanceStranded()
    ensures var s := Run(false, DIES_ONCE_RECORDED);
            |s.runs| == 1 && s.runs[0].phase == Done(AnsweredFromRecord) && s.facts.links == {} && !s.facts.hold &&
            RecordedForGood(s.facts) && s.claim.None?
  {
    StrandingReached(false);
  }

  /** So does that of a remittance its arrival should hold, and in no continuation is it ever held for a person to see. */
  lemma HoldNeverPlaced(more: seq<Event>)
    ensures var s := Run(true, DIES_ONCE_RECORDED);
            |s.runs| == 1 && s.runs[0].phase == Done(AnsweredFromRecord) && s.facts.links == {} &&
            !Run(true, DIES_ONCE_RECORDED + more).facts.hold
  {
    StrandingReached(true);
    RemittanceLinesAreNotResumed(true, DIES_ONCE_RECORDED, more);
  }
}
