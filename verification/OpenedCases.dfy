/**
 The cases that reads of one notice open by themselves: at most one where every run that opens one
 lives to record its reading, or the store recognises the claim of the case already open.
 */
module OpenedCases {
  import opened ReadAttach
  import PaidReads

  /** A run opens a case from what it read. */
  predicate Opens(s: State, e: Event) {
    e.Open? && e.refusal.None? && e.i < |s.runs| && InTurn(s.runs[e.i], e)
  }

  function CasesOpened(arrivedHeld: bool, events: seq<Event>): nat {
    if events == [] then 0
    else
      var before := events[..|events| - 1];
      CasesOpened(arrivedHeld, before) + if Opens(Run(arrivedHeld, before), events[|events| - 1]) then 1 else 0
  }

  predicate AtItsRecord(r: Delivery) {
    r.phase.Holding? && r.phase.at.AtRecord?
  }

  /** A run that opened a case fails or dies before its record, with no earlier reading on record. */
  predicate LosesItsCase(s: State, e: Event) {
    s.facts.recorded.None? && s.facts.links != {} && (e.Die? || (e.Record? && e.refusal.Some?)) &&
    e.i < |s.runs| && AtItsRecord(s.runs[e.i])
  }

  /**
   The store refuses a second case, where it recognises the claim of the first; no run loses its case
   before its record, where none may.
   */
  predicate Admitted(recognised: bool, loses: bool, s: State, cases: nat, e: Event) {
    (recognised && cases > 0 ==> !Opens(s, e)) && (!loses ==> !LosesItsCase(s, e))
  }

  predicate AdmittedRun(arrivedHeld: bool, recognised: bool, loses: bool, events: seq<Event>) {
    forall k :: 0 <= k < |events| ==>
      Admitted(recognised, loses, Run(arrivedHeld, events[..k]), CasesOpened(arrivedHeld, events[..k]), events[k])
  }

  lemma AdmittedPrefix(arrivedHeld: bool, recognised: bool, loses: bool, events: seq<Event>)
    requires events != [] && AdmittedRun(arrivedHeld, recognised, loses, events)
    ensures var before := events[..|events| - 1];
            AdmittedRun(arrivedHeld, recognised, loses, before) &&
            Admitted(recognised, loses, Run(arrivedHeld, before), CasesOpened(arrivedHeld, before), events[|events| - 1])
  {
    var before := events[..|events| - 1];
    forall k | 0 <= k < |before|
      ensures Admitted(recognised, loses, Run(arrivedHeld, before[..k]), CasesOpened(arrivedHeld, before[..k]), before[k])
    {
      assert before[..k] == events[..k];
    }
  }

  /** Points on the way to opening a case. */
  predicate ReadsOn(at: Point) {
    at.AtResolve? || at.AtPay? || at.AtOpen?
  }

  /** Once a case was opened its reading is recorded, or its run is about to record it; nobody else reads. */
  predicate OpenedInv(s: State, cases: nat) {
    cases <= 1 &&
    (cases == 1 ==>
      s.facts.links != {} &&
      (s.facts.recorded.Some? || (s.claim.Some? && s.claim.value < |s.runs| && AtItsRecord(s.runs[s.claim.value]))) &&
      forall i: nat | i < |s.runs| :: s.runs[i].phase.Holding? ==> !ReadsOn(s.runs[i].phase.at))
  }

  lemma ActOpens(f: Facts, r: Delivery, e: Event)
    requires InTurn(r, e) && f.links != {} && !ReadsOn(r.phase.at) && (f.recorded.Some? || AtItsRecord(r))
    requires f.recorded.None? ==> !e.Die? && !(e.Record? && e.refusal.Some?)
    ensures var x := Act(f, r, e);
            x.facts.links != {} && x.facts.recorded.Some? && (x.phase.Holding? ==> !ReadsOn(x.phase.at))
  {
  }

  lemma OpeningKept(s: State, e: Event)
    requires Inv(s) && OpenedInv(s, 0) && Opens(s, e)
    ensures OpenedInv(Step(s, e), 1)
  {
    assert e.c in Step(s, e).facts.links;
  }

  lemma ClaimStepKeepsOpened(s: State, e: Event, cases: nat)
    requires Inv(s) && OpenedInv(s, cases) && ClaimEvent(e) && !Opens(s, e) && !LosesItsCase(s, e)
    ensures OpenedInv(Step(s, e), cases)
  {
    if cases == 1 && e.i < |s.runs| && InTurn(s.runs[e.i], e) { ActOpens(s.facts, s.runs[e.i], e); }
  }

  lemma QueueStepKeepsOpened(s: State, e: Event, cases: nat)
    requires Inv(s) && OpenedInv(s, cases) && !ClaimEvent(e)
    ensures OpenedInv(Step(s, e), cases)
  {
    if e.PersonAttaches? || e.Release? { assert s.facts.links <= Step(s, e).facts.links; }
  }

  lemma NobodyOpensAgain(s: State, e: Event)
    requires OpenedInv(s, 1)
    ensures !Opens(s, e)
  {
  }

  lemma {:induction false} EveryRunKeepsOpened(arrivedHeld: bool, recognised: bool, events: seq<Event>)
    requires AdmittedRun(arrivedHeld, recognised, false, events)
    ensures OpenedInv(Run(arrivedHeld, events), CasesOpened(arrivedHeld, events))
  {
    if events != [] {
      var (before, e) := (events[..|events| - 1], events[|events| - 1]);
      AdmittedPrefix(arrivedHeld, recognised, false, events);
      EveryRunKeepsOpened(arrivedHeld, recognised, before);
      EveryRunKeeps(arrivedHeld, before);
      var (s, cases) := (Run(arrivedHeld, before), CasesOpened(arrivedHeld, before));
      if Opens(s, e) {
        if cases == 1 { NobodyOpensAgain(s, e); }
        OpeningKept(s, e);
      } else if ClaimEvent(e) {
        ClaimStepKeepsOpened(s, e, cases);
      } else {
        QueueStepKeepsOpened(s, e, cases);
      }
    }
  }

  lemma {:induction false} RecognisedOpenOnce(arrivedHeld: bool, loses: bool, events: seq<Event>)
    requires AdmittedRun(arrivedHeld, true, loses, events)
    ensures CasesOpened(arrivedHeld, events) <= 1
  {
    if events != [] {
      AdmittedPrefix(arrivedHeld, true, loses, events);
      RecognisedOpenOnce(arrivedHeld, loses, events[..|events| - 1]);
    }
  }

  // -------------------------------------------------------------------------
  // A case lost before its record
  // -------------------------------------------------------------------------

  const READS_A_NOTICE: seq<Event> := [Upload(None, true), Begin(0, None), Guard(0), Resolve(0, None), Pay(0, Read(Notice, false))]

  const OPENS_DIES_AND_READS_AGAIN: seq<Event> :=
    [Open(0, 7, None), Die(0), Begin(0, None), Guard(0), Resolve(0, None), Pay(0, Read(Notice, false))]

  /** The run of an upload at this point of its first or second attempt, with these cases opened. */
  function At(phase: Phase, attempts: nat, paid: nat, links: set<nat>): State {
    var r := Delivery(Request(None, true, ForDocument), attempts, paid, phase);
    var claim := if phase.Holding? then Some(0) else None;
    State(Facts(false, None, links, false), claim, [r], {ForDocument}, 0, paid, 0, if attempts > 1 then 1 else 0)
  }

  lemma ReadsANotice()
    ensures Run(false, READS_A_NOTICE) == At(Holding(AtOpen), 1, 1, {})
  {
    PaidReads.FirstTwoSteps(false, true);
    PaidReads.NextTwoSteps(false, true);
    var s := PaidReads.FirstStates(false, true);
    RunThrough(false, [], READS_A_NOTICE, s + [At(Holding(AtOpen), 1, 1, {})]);
    assert [] + READS_A_NOTICE == READS_A_NOTICE;
  }

  function AgainStates(): seq<State> {
    [At(Holding(AtOpen), 1, 1, {}), At(Holding(AtRecord(Notice, ThenDone)), 1, 1, {7}),
     At(Waiting, 1, 1, {7}).(failed := 1), At(Holding(AtGuard), 2, 1, {7}), At(Holding(AtResolve), 2, 1, {7}),
     At(Holding(AtPay), 2, 1, {7}), At(Holding(AtOpen), 2, 2, {7})]
  }

  lemma AgainFirstSteps()
    ensures var (e, s) := (OPENS_DIES_AND_READS_AGAIN, AgainStates());
            Step(s[0], e[0]) == s[1] && Step(s[1], e[1]) == s[2] && Step(s[2], e[2]) == s[3]
  {
  }

  lemma AgainLastSteps()
    ensures var (e, s) := (OPENS_DIES_AND_READS_AGAIN, AgainStates());
            Step(s[3], e[3]) == s[4] && Step(s[4], e[4]) == s[5] && Step(s[5], e[5]) == s[6]
  {
  }

  lemma OpeningCounts(arrivedHeld: bool, events: seq<Event>, e: Event)
    requires Opens(Run(arrivedHeld, events), e)
    ensures CasesOpened(arrivedHeld, events + [e]) == CasesOpened(arrivedHeld, events) + 1
  {
    assert (events + [e])[..|events|] == events;
  }

  lemma {:induction false} CasesStay(arrivedHeld: bool, events: seq<Event>, more: seq<Event>)
    ensures CasesOpened(arrivedHeld, events + more) >= CasesOpened(arrivedHeld, events)
  {
    if more == [] {
      assert events + more == events;
    } else {
      CasesStay(arrivedHeld, events, more[..|more| - 1]);
      assert (events + more)[..|events + more| - 1] == events + more[..|more| - 1];
    }
  }

  const OPENS_TWICE: seq<Event> := READS_A_NOTICE + OPENS_DIES_AND_READS_AGAIN + [Open(0, 8, None)]

  /**
   A run that opens a case from its notice and dies before its record is tried again, pays again, and
   opens another where the store does not recognise the claim.
   */
  lemma TwoCasesOpened()
    ensures CasesOpened(false, OPENS_TWICE) >= 2 && Run(false, OPENS_TWICE).facts.links == {7, 8}
  {
    ReadsANotice();
    AgainFirstSteps();
    AgainLastSteps();
    RunThrough(false, READS_A_NOTICE, OPENS_DIES_AND_READS_AGAIN, AgainStates());
    var first := Open(0, 7, None);
    OpeningCounts(false, READS_A_NOTICE, first);
    CasesStay(false, READS_A_NOTICE + [first], OPENS_DIES_AND_READS_AGAIN[1..]);
    var again := READS_A_NOTICE + OPENS_DIES_AND_READS_AGAIN;
    assert again == READS_A_NOTICE + [first] + OPENS_DIES_AND_READS_AGAIN[1..];
    OpeningCounts(false, again, Open(0, 8, None));
    RunSnoc(false, again, Open(0, 8, None));
  }

  /**
   Over every run the reads of one document open at most one case from its notice exactly when the
   store recognises the claim of a case already open, or no run that opened one is lost before its record.
   */
  lemma OneCaseOpenedExactly(recognised: bool, loses: bool)
    ensures (forall arrivedHeld: bool, events :: AdmittedRun(arrivedHeld, recognised, loses, events) ==>
              CasesOpened(arrivedHeld, events) <= 1) <==> recognised || !loses
  {
    if recognised || !loses {
      forall arrivedHeld: bool, events | AdmittedRun(arrivedHeld, recognised, loses, events)
        ensures CasesOpened(arrivedHeld, events) <= 1
      {
        if recognised { RecognisedOpenOnce(arrivedHeld, loses, events); }
        else { EveryRunKeepsOpened(arrivedHeld, recognised, events); }
      }
    } else {
      TwoCasesOpened();
      assert AdmittedRun(false, false, true, OPENS_TWICE);
    }
  }
}
