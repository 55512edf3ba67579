/**
 What each class of failure does to a run of `read-document`, by name: the nine that end it at once, the
 three it is tried again after, and the attachment that finds its document being read.
 */
module ReadFailures {
  import opened ReadAttach

  /** At this step the run fails with this: refused, answered so, dead, or with what opening had thrown. */
  predicate FailsWith(s: State, i: nat, e: Event, error: ReadError) {
    i < |s.runs| &&
    var r := s.runs[i];
    match e
    case Begin(j, refusal) => j == i && r.phase.Waiting? && refusal == Some(error)
    case File(j, refusal) => j == i && r.phase == Holding(AtFile) && r.request.target.Some? && refusal == Some(error)
    case Resolve(j, refusal) => j == i && r.phase == Holding(AtResolve) && refusal == Some(error)
    case Pay(j, answer) =>
      j == i && r.phase == Holding(AtPay) && (answer == PaidAndFailed(error) || answer == FailedUnpaid(error))
    case Record(j, refusal) =>
      j == i && r.phase.Holding? && r.phase.at.AtRecord? &&
      (refusal == Some(error) || (refusal.None? && r.phase.at.next == ThenFail(error)))
    case PlaceHold(j, refusal) => j == i && r.phase == Holding(AtHold) && refusal == Some(error)
    case OpenLines(j, _, refusal) => j == i && r.phase == Holding(AtLines) && refusal == Some(error)
    case Link(j, refusal) => j == i && r.phase == Holding(AtLink) && r.request.target.Some? && refusal == Some(error)
    case Die(j) => j == i && r.phase.Holding? && error == Transient
    case _ => false
  }

  /** The run as it stands once its attempt has failed, by the name of the failure. */
  predicate FailedAs(after: Delivery, attempts: nat, error: ReadError) {
    after.attempts == attempts &&
    match error
    case InvalidJobPayload => after.phase == Failed(InvalidJobPayload)
    case CaseNotFound => after.phase == Failed(CaseNotFound)
    case CaseMergedAway => after.phase == Failed(CaseMergedAway)
    case DuplicateCase => after.phase == Failed(DuplicateCase)
    case UnscannedDocument => after.phase == Failed(UnscannedDocument)
    case ClassificationRefused => after.phase == Failed(ClassificationRefused)
    case ClassificationFloor => after.phase == Failed(ClassificationFloor)
    case Rendition => after.phase == Failed(Rendition)
    case CheckConstraint => after.phase == Failed(CheckConstraint)
    case DocumentNotFound => after.phase == if attempts < 4 then Waiting else Failed(DocumentNotFound)
    case AwaitsRead => after.phase == if attempts < 4 then Waiting else Failed(AwaitsRead)
    case Transient => after.phase == if attempts < 4 then Waiting else Failed(Transient)
  }

  lemma FailureByName(r: Delivery, attempts: nat, error: ReadError)
    requires r.attempts == attempts && r.phase == AfterFailure(attempts, error)
    ensures FailedAs(r, attempts, error)
  {
  }

  lemma BeginFails(s: State, i: nat, error: ReadError)
    requires i < |s.runs| && s.runs[i].phase.Waiting?
    ensures var (r, t) := (s.runs[i], BeginStep(s, i, Some(error)));
            |t.runs| == |s.runs| && t.runs[i] == r.(attempts := r.attempts + 1, phase := AfterFailure(r.attempts + 1, error))
  {
  }

  lemma HolderFails(s: State, i: nat, e: Event, error: ReadError)
    requires FailsWith(s, i, e, error) && !e.Begin?
    ensures var (r, t) := (s.runs[i], Step(s, e));
            |t.runs| == |s.runs| && t.runs[i].request == r.request && t.runs[i].attempts == r.attempts &&
            t.runs[i].phase == AfterFailure(r.attempts, error)
  {
  }

  lemma FailureStep(s: State, i: nat, e: Event, error: ReadError)
    requires FailsWith(s, i, e, error)
    ensures var (r, t) := (s.runs[i], Step(s, e));
            i < |t.runs| && t.runs[i].request == r.request &&
            FailedAs(t.runs[i], if e.Begin? then r.attempts + 1 else r.attempts, error)
  {
    if e.Begin? { BeginFails(s, i, error); } else { HolderFails(s, i, e, error); }
    FailureByName(Step(s, e).runs[i], if e.Begin? then s.runs[i].attempts + 1 else s.runs[i].attempts, error);
  }

  /**
   From any reachable state, a failure of one of nine classes ends its run, which nothing changes or
   pays for again in any continuation; DocumentNotFound, AwaitsRead and Transient leave it waiting to
   be tried again before its fourth attempt, and end it there.
   */
  lemma EachFailureByName(arrivedHeld: bool, events: seq<Event>, i: nat, e: Event, error: ReadError, more: seq<Event>)
    requires FailsWith(Run(arrivedHeld, events), i, e, error)
    ensures var (s, t) := (Run(arrivedHeld, events), Run(arrivedHeld, events + [e]));
            i < |t.runs| && FailedAs(t.runs[i], if e.Begin? then s.runs[i].attempts + 1 else s.runs[i].attempts, error)
    ensures var (t, u) := (Run(arrivedHeld, events + [e]), Run(arrivedHeld, events + [e] + more));
            t.runs[i].phase.Failed? ==> i < |u.runs| && u.runs[i] == t.runs[i]
  {
    RunSnoc(arrivedHeld, events, e);
    FailureStep(Run(arrivedHeld, events), i, e, error);
    if Run(arrivedHeld, events + [e]).runs[i].phase.Failed? { EndedStaysEnded(arrivedHeld, events + [e], more, i); }
  }

  // -------------------------------------------------------------------------
  // An attachment that finds its document being read
  // -------------------------------------------------------------------------

  /** An attachment with an attempt to spare that finds the claim held goes on waiting, having paid nothing and changed nothing. */
  lemma AttachmentWaitsItsTurn(arrivedHeld: bool, events: seq<Event>, i: nat, c: nat)
    requires var s := Run(arrivedHeld, events);
             s.claim.Some? && i < |s.runs| && s.runs[i].phase.Waiting? && s.runs[i].request.target == Some(c) && s.runs[i].attempts < 3
    ensures var s := Run(arrivedHeld, events);
            Run(arrivedHeld, events + [Begin(i, None)]) ==
            s.(runs := s.runs[i := Delivery(s.runs[i].request, s.runs[i].attempts + 1, s.runs[i].paid, Waiting)])
  {
    RunSnoc(arrivedHeld, events, Begin(i, None));
  }

  lemma DyingFreesTheClaim(s: State)
    requires ClaimInv(s.claim, s.runs) && s.claim.Some?
    ensures var t := Step(s, Die(s.claim.value));
            t.claim.None? && |t.runs| == |s.runs| && forall j: nat | j < |s.runs| :: j != s.claim.value ==> t.runs[j] == s.runs[j]
  {
  }

  /**
   So even if the read in front of it dies, the attachment's next attempt with every call answered files
   the document on its case.
   */
  lemma AttachmentFilesAfterwards(arrivedHeld: bool, events: seq<Event>, i: nat, c: nat, t: DocType)
    requires var s := Run(arrivedHeld, events);
             s.claim.Some? && i < |s.runs| && s.runs[i].phase.Waiting? && s.runs[i].request.target == Some(c) && s.runs[i].attempts < 3
    ensures var s := Run(arrivedHeld, events);
            var u := Run(arrivedHeld, events + [Begin(i, None)] + [Die(s.claim.value)] + FilingEvents(i, t));
            i < |u.runs| && u.runs[i].phase.Done? && c in u.facts.links
  {
    AttachmentWaitsItsTurn(arrivedHeld, events, i, c);
    var waited := events + [Begin(i, None)];
    var claim := Run(arrivedHeld, events).claim;
    EveryRunKeeps(arrivedHeld, waited);
    DyingFreesTheClaim(Run(arrivedHeld, waited));
    RunSnoc(arrivedHeld, waited, Die(claim.value));
    AnsweredAttemptFiles(arrivedHeld, waited + [Die(claim.value)], i, c, t);
  }
}
