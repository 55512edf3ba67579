/** What each await of a read leads to, by the facts it finds and the answer it gets; and what a run's answer means. */
module ReadAnswers {
  import opened ReadAttach

  // -------------------------------------------------------------------------
  // Each await
  // -------------------------------------------------------------------------

  /**
   An attempt takes a claim that is free; where it is held, one that names a case fails with its
   retry-after, and one that names none is over: the read that is running is the one it asked for.
   */
  lemma BeginLeads(s: State, i: nat)
    requires i < |s.runs| && s.runs[i].phase == Waiting
    ensures var (r, t) := (s.runs[i], Step(s, Begin(i, None)));
            t == s.(claim := if s.claim == None then Some(i) else s.claim, runs := s.runs[i := Delivery(r.request, r.attempts + 1, r.paid,
              if s.claim == None then Holding(AtGuard)
              else if r.request.target == None then Done(BeingRead)
              else if r.attempts + 1 < 4 then Waiting else Failed(AwaitsRead))])
  {
  }

  /**
   Under the claim: a document nobody has read is read. One read before is filed on the case that asks
   and does not hold it; it answers any other request, but a notice on no case and not held is read
   again for one who may open a case.
   */
  lemma GuardLeads(f: Facts, r: Delivery)
    requires r.phase == Holding(AtGuard)
    ensures Act(f, r, Guard(0)) == Effect(f,
              if f.recorded == None then Holding(AtResolve)
              else if r.request.target.Some? && r.request.target.value !in f.links then Holding(AtFile)
              else if r.request.target == None && f.links == {} && !f.hold && f.recorded == Some(Notice) && r.request.mayOpen
              then Holding(AtResolve)
              else Done(AnsweredFromRecord), false)
  {
  }

  /** The gate: what a reading that succeeded leads to, by its type, its doubts and the document's arrival. */
  lemma ReadingLeads(f: Facts, r: Delivery, t: DocType, doubtful: bool)
    requires r.phase == Holding(AtPay)
    ensures var named := r.request.target.Some?;
            var opensCases := t == Notice || t == Remittance;
            var held := !named && opensCases && (f.arrivedHeld || (r.request.mayOpen && doubtful));
            Act(f, r, Pay(0, Read(t, doubtful))) == Effect(f, Holding(
              if named then AtRecord(t, ThenLink)
              else if held then AtRecord(t, ThenHold)
              else if t == Notice && r.request.mayOpen then AtOpen
              else if t == Remittance && r.request.mayOpen then AtRecord(t, ThenLines)
              else AtRecord(t, ThenDone)), true)
  {
  }

  /** Opening: its case holds the document before the record; what it failed with is thrown after it. */
  lemma OpeningLeads(f: Facts, r: Delivery, c: nat, refusal: Option<ReadError>)
    requires r.phase == Holding(AtOpen)
    ensures Act(f, r, Open(0, c, refusal)) ==
            if refusal == None then Effect(f.(links := f.links + {c}), Holding(AtRecord(Notice, ThenDone)), false)
            else Effect(f, Holding(AtRecord(Notice, ThenFail(refusal.value))), false)
  {
  }

  /** The record: what was read is written down, and then what is left is done. */
  lemma RecordLeads(f: Facts, r: Delivery, t: DocType, next: Then)
    requires r.phase == Holding(AtRecord(t, next))
    ensures var x := Act(f, r, Record(0, None));
            x.facts == f.(recorded := Some(t)) && !x.pays &&
            (next == ThenHold ==> x.phase == Holding(AtHold)) && (next == ThenLines ==> x.phase == Holding(AtLines)) &&
            (next == ThenLink ==> x.phase == Holding(AtLink)) && (next == ThenDone ==> x.phase == Done(ReadIt))
  {
  }

  /** What is left of a reading once it is recorded, and a filing from the record. */
  lemma LastStepsLead(f: Facts, r: Delivery, joined: set<nat>)
    ensures r.phase == Holding(AtHold) ==> Act(f, r, PlaceHold(0, None)) == Effect(f.(hold := true), Done(ReadIt), false)
    ensures r.phase == Holding(AtLines) ==>
              Act(f, r, OpenLines(0, joined, None)) == Effect(f.(links := f.links + joined), Done(ReadIt), false)
    ensures r.request.target.Some? && r.phase == Holding(AtLink) ==>
              Act(f, r, Link(0, None)) == Effect(f.(links := f.links + {r.request.target.value}), Done(ReadIt), false)
    ensures r.request.target.Some? && r.phase == Holding(AtFile) ==>
              Act(f, r, File(0, None)) == Effect(f.(links := f.links + {r.request.target.value}), Done(FiledFromRecord), false)
    ensures r.phase == Holding(AtResolve) ==> Act(f, r, Resolve(0, None)) == Effect(f, Holding(AtPay), false)
  {
  }

  /** A failure writes nothing but the cases that lines were joined to before it, and pays only where the model was called. */
  lemma FailuresWriteNothing(f: Facts, r: Delivery, e: Event)
    requires InTurn(r, e)
    requires match e
             case Pay(_, answer) => !answer.Read?
             case Record(_, refusal) => refusal.Some?
             case File(_, refusal) => refusal.Some?
             case Resolve(_, refusal) => refusal.Some?
             case PlaceHold(_, refusal) => refusal.Some?
             case OpenLines(_, _, refusal) => refusal.Some?
             case Link(_, refusal) => refusal.Some?
             case Die(_) => true
             case _ => false
    ensures var x := Act(f, r, e);
            x.facts == (if e.OpenLines? then f.(links := f.links + e.joined) else f) &&
            (x.pays <==> e.Pay? && e.answer.PaidAndFailed?)
  {
  }

  // -------------------------------------------------------------------------
  // What a person does beside it
  // -------------------------------------------------------------------------

  /** A person puts a document that was read on a case, and lets go of one that is held. */
  lemma PeopleActs(s: State, c: nat)
    ensures Step(s, PersonAttaches(c)).facts == if s.facts.recorded == None then s.facts else s.facts.(links := s.facts.links + {c})
    ensures Step(s, Release(c)).facts == if s.facts.hold then s.facts.(links := s.facts.links + {c}, hold := false) else s.facts
  {
  }

  /** A request whose key is in the window is dropped, until the key leaves it; any other starts a run of its own. */
  lemma RequestsStart(s: State, target: Option<nat>, mayOpen: bool, key': ReadKey)
    ensures Step(s, Expire(key')) == s.(window := s.window - {key'})
    ensures var key := if target.Some? then ForPair(target.value) else ForDocument;
            Step(s, Upload(target, mayOpen)) ==
            if key in s.window then s
            else s.(window := s.window + {key}, runs := s.runs + [Delivery(Request(target, mayOpen, key), 0, 0, Waiting)])
    ensures Fresh(s.nextFresh) !in s.window ==>
              Step(s, ReDrive(target, mayOpen)).runs == s.runs + [Delivery(Request(target, mayOpen, Fresh(s.nextFresh)), 0, 0, Waiting)]
  {
  }

  // -------------------------------------------------------------------------
  // What an answer means
  // -------------------------------------------------------------------------

  /** A run's answer, by what it paid and what is on record. */
  predicate AnswerInv(f: Facts, r: Delivery) {
    match r.phase
    case Done(ReadIt) => r.paid > 0 && f.recorded.Some?
    case Done(AnsweredFromRecord) => f.recorded.Some?
    case Done(FiledFromRecord) => f.recorded.Some? && r.request.target.Some?
    case Done(BeingRead) => r.request.target == None
    case Holding(at) =>
      (PastPay(at) ==> r.paid > 0) && (at.AtHold? || at.AtLines? || at.AtLink? || at.AtFile? ==> f.recorded.Some?)
    case _ => true
  }

  lemma ActAnswers(f: Facts, r: Delivery, e: Event)
    requires InTurn(r, e) && AnswerInv(f, r)
    ensures var x := Act(f, r, e);
            (f.recorded.Some? ==> x.facts.recorded.Some?) &&
            AnswerInv(x.facts, r.(phase := x.phase, paid := r.paid + if x.pays then 1 else 0))
  {
  }

  predicate AnswersInv(s: State) {
    forall i: nat | i < |s.runs| :: AnswerInv(s.facts, s.runs[i])
  }

  lemma AnswersStep(s: State, e: Event)
    requires AnswersInv(s)
    ensures AnswersInv(Step(s, e))
  {
    var t := Step(s, e);
    if ClaimEvent(e) && e.i < |s.runs| && InTurn(s.runs[e.i], e) { ActAnswers(s.facts, s.runs[e.i], e); }
    forall i: nat | i < |t.runs| ensures AnswerInv(t.facts, t.runs[i]) {
      if i < |s.runs| { assert AnswerInv(s.facts, s.runs[i]); }
    }
  }

  lemma {:induction false} EveryAnswerKept(arrivedHeld: bool, events: seq<Event>)
    ensures AnswersInv(Run(arrivedHeld, events))
  {
    if events != [] {
      EveryAnswerKept(arrivedHeld, events[..|events| - 1]);
      AnswersStep(Run(arrivedHeld, events[..|events| - 1]), events[|events| - 1]);
    }
  }

  /**
   Over every run: one that says it read the document paid for it; one that says the record answered
   or was filed has a record, and its document is on the case it named; one that leaves it to another
   named no case.
   */
  lemma AnswersMean(arrivedHeld: bool, events: seq<Event>, i: nat)
    requires i < |Run(arrivedHeld, events).runs| && Run(arrivedHeld, events).runs[i].phase.Done?
    ensures var (s, r) := (Run(arrivedHeld, events), Run(arrivedHeld, events).runs[i]);
            (r.phase.answer == ReadIt ==> r.paid > 0) && (r.phase.answer != BeingRead ==> s.facts.recorded != None) &&
            (r.phase.answer == BeingRead ==> r.request.target == None) &&
            (r.phase.answer == FiledFromRecord ==> r.request.target.Some?) &&
            (r.request.target.Some? ==> r.request.target.value in s.facts.links)
  {
    EveryAnswerKept(arrivedHeld, events);
    EveryRunKeeps(arrivedHeld, events);
    assert AnswerInv(Run(arrivedHeld, events).facts, Run(arrivedHeld, events).runs[i]);
    assert RunInv(Run(arrivedHeld, events).facts.links, Run(arrivedHeld, events).runs[i]);
  }
}
