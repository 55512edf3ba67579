/**
 Reading one uploaded document and filing it on the cases that asked for it: every delivery of
 `read-document` for one document, the claim they take in turn (`withDocumentRead`), the guard
 and the read made under it (`readDocumentJob`, `answerFromRecord`, `readDocument`), the
 retry-after of an attachment that finds the document claimed, and the runtime's window and
 attempt limit. Spreadsheets, which are read without a model call, are not modelled.

 Every await of an attempt is a point at which it may fail or die.
 */
module ReadAttach {

  datatype Option<+T> = None | Some(value: T)

  datatype DocType = Notice | Remittance | OtherType

  /** What an attempt can fail with; `AwaitsRead` is the retry-after of an attachment. */
  datatype ReadError =
    | InvalidJobPayload | CaseNotFound | CaseMergedAway | DuplicateCase | UnscannedDocument
    | ClassificationRefused | ClassificationFloor | Rendition | CheckConstraint
    | DocumentNotFound | AwaitsRead | Transient

  /** `readKey`: the document, the document and case (`attachReadKey`), or a re-drive's own. */
  datatype ReadKey = ForDocument | ForPair(c: nat) | Fresh(n: nat)

  datatype Request = Request(target: Option<nat>, mayOpen: bool, key: ReadKey)

  /** What is left to do once the reading is recorded. */
  datatype Then = ThenFail(error: ReadError) | ThenHold | ThenLines | ThenLink | ThenDone

  datatype Point = AtGuard | AtFile | AtResolve | AtPay | AtOpen | AtRecord(t: DocType, next: Then) | AtHold | AtLines | AtLink

  datatype Answer = ReadIt | AnsweredFromRecord | FiledFromRecord | BeingRead

  datatype Phase = Waiting | Holding(at: Point) | Done(answer: Answer) | Failed(error: ReadError)

  datatype Delivery = Delivery(request: Request, attempts: nat, paid: nat, phase: Phase)

  /** What the database says of the document: its arrival, its reading, its cases, its hold. */
  datatype Facts = Facts(arrivedHeld: bool, recorded: Option<DocType>, links: set<nat>, hold: bool)

  datatype State = State(
    facts: Facts,
    claim: Option<nat>,
    runs: seq<Delivery>,
    window: set<ReadKey>,
    nextFresh: nat,
    paid: nat,
    succeeded: nat,
    failed: nat)

  datatype ReadAnswer = Read(t: DocType, doubtful: bool) | PaidAndFailed(error: ReadError) | FailedUnpaid(error: ReadError)

  datatype Event =
    | Upload(target: Option<nat>, mayOpen: bool)
    | ReDrive(target: Option<nat>, mayOpen: bool)
    | Expire(key: ReadKey)
    | PersonAttaches(c: nat)
    | Release(c: nat)
    | Begin(i: nat, refusal: Option<ReadError>)
    | Guard(i: nat)
    | File(i: nat, refusal: Option<ReadError>)
    | Resolve(i: nat, refusal: Option<ReadError>)
    | Pay(i: nat, answer: ReadAnswer)
    | Open(i: nat, c: nat, refusal: Option<ReadError>)
    | Record(i: nat, refusal: Option<ReadError>)
    | PlaceHold(i: nat, refusal: Option<ReadError>)
    | OpenLines(i: nat, joined: set<nat>, refusal: Option<ReadError>)
    | Link(i: nat, refusal: Option<ReadError>)
    | Die(i: nat)

  const MAX_ATTEMPTS := 4

  /** `asJobFailure`: the failures another try cannot answer differently. */
  predicate SettledFailure(e: ReadError) {
    !e.DocumentNotFound? && !e.AwaitsRead? && !e.Transient?
  }

  /** Points an attempt reaches only after its model calls were paid for. */
  predicate PastPay(at: Point) {
    at.AtOpen? || at.AtRecord? || at.AtHold? || at.AtLines? || at.AtLink?
  }

  /** Points an attempt reaches only by deciding to read. */
  predicate Reading(at: Point) {
    at.AtResolve? || at.AtPay? || PastPay(at)
  }

  // -------------------------------------------------------------------------
  // The steps
  // -------------------------------------------------------------------------

  function Init(arrivedHeld: bool): State {
    State(Facts(arrivedHeld, None, {}, false), None, [], {}, 0, 0, 0, 0)
  }

  /** How a failed attempt leaves its run: over, or to be tried again. */
  function AfterFailure(attempts: nat, e: ReadError): Phase {
    if SettledFailure(e) || attempts >= MAX_ATTEMPTS then Failed(e) else Waiting
  }

  function Enqueue(s: State, r: Request): State {
    if r.key in s.window then s
    else s.(window := s.window + {r.key}, runs := s.runs + [Delivery(r, 0, 0, Waiting)])
  }

  function UploadKey(target: Option<nat>): ReadKey {
    match target case None => ForDocument case Some(c) => ForPair(c)
  }

  /** An attempt: the checks before the claim, then the claim or its refusal. */
  function BeginStep(s: State, i: nat, refusal: Option<ReadError>): State
    requires i < |s.runs| && s.runs[i].phase.Waiting?
  {
    var attempts := s.runs[i].attempts + 1;
    var takes := refusal.None? && s.claim.None?;
    var phase :=
      if refusal.Some? then AfterFailure(attempts, refusal.value)
      else if takes then Holding(AtGuard)
      else if s.runs[i].request.target.Some? then AfterFailure(attempts, AwaitsRead)
      else Done(BeingRead);
    s.(runs := s.runs[i := s.runs[i].(attempts := attempts, phase := phase)], claim := if takes then Some(i) else s.claim)
  }

  /** What one step under the claim does: the facts it writes, where it leaves the run, and whether it paid. */
  datatype Effect = Effect(facts: Facts, phase: Phase, pays: bool)

  function FailWith(f: Facts, r: Delivery, e: ReadError): Effect {
    Effect(f, AfterFailure(r.attempts, e), false)
  }

  function FailOr(f: Facts, r: Delivery, refusal: Option<ReadError>, done: Effect): Effect {
    if refusal.Some? then FailWith(f, r, refusal.value) else done
  }

  function MoveTo(f: Facts, at: Point): Effect {
    Effect(f, Holding(at), false)
  }

  function Finish(f: Facts, answer: Answer): Effect {
    Effect(f, Done(answer), false)
  }

  /** `recordedRead`: what an earlier read already settles. */
  function GuardEffect(f: Facts, r: Request): Effect {
    if f.recorded.None? then MoveTo(f, AtResolve)
    else if r.target.Some? then
      if r.target.value in f.links then Finish(f, AnsweredFromRecord) else MoveTo(f, AtFile)
    else if f.links != {} || f.hold then Finish(f, AnsweredFromRecord)
    else if f.recorded.value.Notice? && r.mayOpen then MoveTo(f, AtResolve)
    else Finish(f, AnsweredFromRecord)
  }

  /** Where the reading takes the attempt: the gate of ADR 0044, the case it opens, or its record. */
  function AfterReading(arrivedHeld: bool, r: Request, t: DocType, doubtful: bool): Point {
    if r.target.Some? then AtRecord(t, ThenLink)
    else if (r.mayOpen || arrivedHeld) && !t.OtherType? && (arrivedHeld || doubtful) then AtRecord(t, ThenHold)
    else if t.Notice? && r.mayOpen then AtOpen
    else AtRecord(t, if t.Remittance? && r.mayOpen then ThenLines else ThenDone)
  }

  function PayEffect(f: Facts, r: Delivery, answer: ReadAnswer): Effect {
    match answer
    case FailedUnpaid(e) => FailWith(f, r, e)
    case PaidAndFailed(e) => FailWith(f, r, e).(pays := true)
    case Read(t, doubtful) => MoveTo(f, AfterReading(f.arrivedHeld, r.request, t, doubtful)).(pays := true)
  }

  function AfterRecord(f: Facts, r: Delivery, next: Then): Effect {
    match next
    case ThenFail(e) => FailWith(f, r, e)
    case ThenHold => MoveTo(f, AtHold)
    case ThenLines => MoveTo(f, AtLines)
    case ThenLink => MoveTo(f, AtLink)
    case ThenDone => Finish(f, ReadIt)
  }

  /** The events of an attempt that holds the claim, each at its own point. */
  predicate InTurn(r: Delivery, e: Event) {
    r.phase.Holding? &&
    match e
    case Guard(_) => r.phase.at.AtGuard?
    case File(_, _) => r.phase.at.AtFile? && r.request.target.Some?
    case Resolve(_, _) => r.phase.at.AtResolve?
    case Pay(_, _) => r.phase.at.AtPay?
    case Open(_, _, _) => r.phase.at.AtOpen?
    case Record(_, _) => r.phase.at.AtRecord?
    case PlaceHold(_, _) => r.phase.at.AtHold?
    case OpenLines(_, _, _) => r.phase.at.AtLines?
    case Link(_, _) => r.phase.at.AtLink? && r.request.target.Some?
    case Die(_) => true
    case _ => false
  }

  function Act(f: Facts, r: Delivery, e: Event): Effect
    requires InTurn(r, e)
  {
    match e
    case Guard(_) => GuardEffect(f, r.request)
    case File(_, refusal) =>
      FailOr(f, r, refusal, Finish(f.(links := f.links + {r.request.target.value}), FiledFromRecord))
    case Resolve(_, refusal) => FailOr(f, r, refusal, MoveTo(f, AtPay))
    case Pay(_, answer) => PayEffect(f, r, answer)
    case Open(_, c, refusal) =>
      // What opening failed with is thrown only after the read is written down.
      if refusal.Some? then MoveTo(f, AtRecord(Notice, ThenFail(refusal.value)))
      else MoveTo(f.(links := f.links + {c}), AtRecord(Notice, ThenDone))
    case Record(_, refusal) =>
      FailOr(f, r, refusal, AfterRecord(f.(recorded := Some(r.phase.at.t)), r, r.phase.at.next))
    case PlaceHold(_, refusal) => FailOr(f, r, refusal, Finish(f.(hold := true), ReadIt))
    case OpenLines(_, joined, refusal) =>
      var after := f.(links := f.links + joined);
      FailOr(after, r, refusal, Finish(after, ReadIt))
    case Link(_, refusal) => FailOr(f, r, refusal, Finish(f.(links := f.links + {r.request.target.value}), ReadIt))
    case Die(_) => FailWith(f, r, Transient)
  }

  /** The effect of run `i`; leaving the claim settles whether a paid read succeeded. */
  function Apply(s: State, i: nat, x: Effect): State
    requires i < |s.runs| && s.runs[i].phase.Holding?
  {
    var r := s.runs[i];
    var cost := if x.pays then 1 else 0;
    var wasPaid := if x.pays || PastPay(r.phase.at) then 1 else 0;
    s.(facts := x.facts,
       runs := s.runs[i := r.(phase := x.phase, paid := r.paid + cost)],
       claim := if x.phase.Holding? then s.claim else None,
       paid := s.paid + cost,
       succeeded := s.succeeded + if x.phase.Done? then wasPaid else 0,
       failed := s.failed + if x.phase.Failed? || x.phase.Waiting? then wasPaid else 0)
  }

  function PersonStep(f: Facts, e: Event): Facts {
    match e
    case PersonAttaches(c) => if f.recorded.Some? then f.(links := f.links + {c}) else f
    case Release(c) => if f.hold then f.(links := f.links + {c}, hold := false) else f
    case _ => f
  }

  /** An event of a run under the claim. */
  predicate ClaimEvent(e: Event) {
    !e.Upload? && !e.ReDrive? && !e.Expire? && !e.PersonAttaches? && !e.Release? && !e.Begin?
  }

  /** One step; an event out of turn changes nothing. */
  function Step(s: State, e: Event): State {
    match e
    case Upload(target, mayOpen) => Enqueue(s, Request(target, mayOpen, UploadKey(target)))
    case ReDrive(target, mayOpen) =>
      Enqueue(s, Request(target, mayOpen, Fresh(s.nextFresh))).(nextFresh := s.nextFresh + 1)
    case Expire(k) => s.(window := s.window - {k})
    case PersonAttaches(_) => s.(facts := PersonStep(s.facts, e))
    case Release(_) => s.(facts := PersonStep(s.facts, e))
    case Begin(i, refusal) => if i < |s.runs| && s.runs[i].phase.Waiting? then BeginStep(s, i, refusal) else s
    case _ => ClaimStep(s, e)
  }

  function ClaimStep(s: State, e: Event): State
    requires ClaimEvent(e)
  {
    if e.i < |s.runs| && InTurn(s.runs[e.i], e) then Apply(s, e.i, Act(s.facts, s.runs[e.i], e)) else s
  }

  function Run(arrivedHeld: bool, events: seq<Event>): State {
    if events == [] then Init(arrivedHeld)
    else Step(Run(arrivedHeld, events[..|events| - 1]), events[|events| - 1])
  }

  lemma RunSnoc(arrivedHeld: bool, events: seq<Event>, e: Event)
    ensures Run(arrivedHeld, events + [e]) == Step(Run(arrivedHeld, events), e)
  {
    assert (events + [e])[..|events|] == events;
  }

  // -------------------------------------------------------------------------
  // What every run keeps
  // -------------------------------------------------------------------------

  /** A run that names a case files there or fails; it is over by its fourth attempt. */
  predicate RunInv(links: set<nat>, r: Delivery) {
    var named := r.request.target.Some?;
    r.paid <= r.attempts <= MAX_ATTEMPTS &&
    (r.phase.Waiting? ==> r.attempts < MAX_ATTEMPTS) &&
    (named && r.phase.Done? ==> r.request.target.value in links && !r.phase.answer.BeingRead?) &&
    (r.phase.Holding? && !PastPay(r.phase.at) ==> r.paid < r.attempts) &&
    (r.phase.Holding? ==>
      var at := r.phase.at;
      (at.AtFile? || at.AtLink? ==> named) &&
      (named ==> !at.AtHold? && !at.AtLines? && !at.AtOpen? && (at.AtRecord? ==> at.next.ThenLink?)) &&
      (at.AtRecord? && at.next.ThenLink? ==> named))
  }

  /** The claim is held by the one run that is inside it. */
  predicate ClaimInv(claim: Option<nat>, runs: seq<Delivery>) {
    (claim.Some? ==> claim.value < |runs|) &&
    forall i: nat | i < |runs| :: runs[i].phase.Holding? <==> claim == Some(i)
  }

  /** The paid read in progress, if there is one. */
  function InProgress(claim: Option<nat>, runs: seq<Delivery>): nat {
    if claim.Some? && claim.value < |runs| && runs[claim.value].phase.Holding? && PastPay(runs[claim.value].phase.at)
    then 1 else 0
  }

  predicate WindowInv(window: set<ReadKey>, runs: seq<Delivery>) {
    forall k :: k in window ==> exists i: nat | i < |runs| :: StartedOn(runs[i], k)
  }

  /** A run was started on this key, and for the case the key names. */
  predicate StartedOn(r: Delivery, k: ReadKey) {
    r.request.key == k &&
    (k.ForPair? ==> r.request.target == Some(k.c)) && (k.ForDocument? ==> r.request.target == None)
  }

  predicate Inv(s: State) {
    (forall i: nat | i < |s.runs| :: RunInv(s.facts.links, s.runs[i])) &&
    ClaimInv(s.claim, s.runs) &&
    s.paid == s.succeeded + s.failed + InProgress(s.claim, s.runs) &&
    WindowInv(s.window, s.runs)
  }

  lemma WindowKept(window: set<ReadKey>, runs: seq<Delivery>, later: seq<Delivery>)
    requires WindowInv(window, runs) && |runs| <= |later|
    requires forall i: nat | i < |runs| :: later[i].request == runs[i].request
    ensures WindowInv(window, later)
  {
    forall k | k in window ensures exists i: nat | i < |later| :: StartedOn(later[i], k) {
      var i: nat :| i < |runs| && StartedOn(runs[i], k);
      assert StartedOn(later[i], k);
    }
  }

  lemma EnqueueKept(s: State, r: Request)
    requires Inv(s)
    requires StartedOn(Delivery(r, 0, 0, Waiting), r.key)
    ensures Inv(Enqueue(s, r))
  {
    var t := Enqueue(s, r);
    if t != s {
      WindowKept(s.window, s.runs, t.runs);
      assert StartedOn(t.runs[|s.runs|], r.key);
      assert RunInv(t.facts.links, t.runs[|s.runs|]);
    }
  }

  /** What a step under the claim leaves of its own run. */
  lemma ActKeepsRun(f: Facts, r: Delivery, e: Event)
    requires InTurn(r, e) && RunInv(f.links, r)
    ensures var x := Act(f, r, e);
            f.links <= x.facts.links && x.facts.arrivedHeld == f.arrivedHeld &&
            RunInv(x.facts.links, r.(phase := x.phase, paid := r.paid + if x.pays then 1 else 0)) &&
            (x.pays ==> !PastPay(r.phase.at)) &&
            (x.phase.Holding? ==> (PastPay(x.phase.at) <==> x.pays || PastPay(r.phase.at)))
  {
  }

  lemma ClaimStepKept(s: State, e: Event)
    requires ClaimEvent(e) && Inv(s)
    ensures Inv(ClaimStep(s, e)) && ClaimStep(s, e).facts.arrivedHeld == s.facts.arrivedHeld
  {
    var t := ClaimStep(s, e);
    if e.i < |s.runs| && InTurn(s.runs[e.i], e) {
      assert RunInv(s.facts.links, s.runs[e.i]);
      ActKeepsRun(s.facts, s.runs[e.i], e);
      ApplyKept(s, e.i, Act(s.facts, s.runs[e.i], e));
    }
  }

  lemma ApplyKept(s: State, i: nat, x: Effect)
    requires Inv(s) && i < |s.runs| && s.runs[i].phase.Holding?
    requires s.facts.links <= x.facts.links
    requires RunInv(x.facts.links, s.runs[i].(phase := x.phase, paid := s.runs[i].paid + if x.pays then 1 else 0))
    requires x.pays ==> !PastPay(s.runs[i].phase.at)
    requires x.phase.Holding? ==> (PastPay(x.phase.at) <==> x.pays || PastPay(s.runs[i].phase.at))
    ensures Inv(Apply(s, i, x))
  {
    var t := Apply(s, i, x);
    WindowKept(s.window, s.runs, t.runs);
    forall j: nat | j < |t.runs| ensures RunInv(t.facts.links, t.runs[j]) {
      assert RunInv(s.facts.links, s.runs[j]);
    }
  }

  lemma BeginKept(s: State, i: nat, refusal: Option<ReadError>)
    requires Inv(s) && i < |s.runs| && s.runs[i].phase.Waiting?
    ensures Inv(BeginStep(s, i, refusal))
  {
    var t := BeginStep(s, i, refusal);
    WindowKept(s.window, s.runs, t.runs);
    forall j: nat | j < |t.runs| ensures RunInv(t.facts.links, t.runs[j]) {
      assert RunInv(s.facts.links, s.runs[j]);
    }
  }

  lemma PersonStepKept(s: State, e: Event)
    requires Inv(s) && (e.PersonAttaches? || e.Release?)
    ensures Inv(Step(s, e))
  {
    var t := Step(s, e);
    forall j: nat | j < |t.runs| ensures RunInv(t.facts.links, t.runs[j]) {
      assert RunInv(s.facts.links, s.runs[j]);
    }
  }

  lemma StepKept(s: State, e: Event)
    requires Inv(s)
    ensures Inv(Step(s, e)) && Step(s, e).facts.arrivedHeld == s.facts.arrivedHeld
  {
    match e
    case Upload(target, mayOpen) => EnqueueKept(s, Request(target, mayOpen, UploadKey(target)));
    case ReDrive(target, mayOpen) => EnqueueKept(s, Request(target, mayOpen, Fresh(s.nextFresh)));
    case Expire(k) =>
    case PersonAttaches(c) => PersonStepKept(s, e);
    case Release(c) => PersonStepKept(s, e);
    case Begin(i, refusal) => if i < |s.runs| && s.runs[i].phase.Waiting? { BeginKept(s, i, refusal); }
    case _ => ClaimStepKept(s, e);
  }

  lemma InitKept(arrivedHeld: bool)
    ensures Inv(Init(arrivedHeld))
  {
  }

  lemma {:induction false} EveryRunKeeps(arrivedHeld: bool, events: seq<Event>)
    ensures Inv(Run(arrivedHeld, events)) && Run(arrivedHeld, events).facts.arrivedHeld == arrivedHeld
  {
    if events == [] {
      InitKept(arrivedHeld);
    } else {
      var before := events[..|events| - 1];
      EveryRunKeeps(arrivedHeld, before);
      StepKept(Run(arrivedHeld, before), events[|events| - 1]);
    }
  }

  // -------------------------------------------------------------------------
  // How runs end
  // -------------------------------------------------------------------------

  predicate Ended(p: Phase) {
    p.Done? || p.Failed?
  }

  /**
   A run that names a case and ends successfully has left its document on that case, and is never
   ended by another delivery's claim; a run has at most four attempts and is over after the fourth.
   */
  lemma NamedRunFilesOrFails(arrivedHeld: bool, events: seq<Event>, i: nat, c: nat)
    requires i < |Run(arrivedHeld, events).runs| && Run(arrivedHeld, events).runs[i].request.target == Some(c)
    ensures var s := Run(arrivedHeld, events);
            (s.runs[i].phase.Done? ==> c in s.facts.links && !s.runs[i].phase.answer.BeingRead?) &&
            s.runs[i].attempts <= MAX_ATTEMPTS &&
            (s.runs[i].attempts == MAX_ATTEMPTS && s.claim != Some(i) ==> Ended(s.runs[i].phase))
  {
    EveryRunKeeps(arrivedHeld, events);
    var s := Run(arrivedHeld, events);
    assert RunInv(s.facts.links, s.runs[i]);
  }

  /** At most one run reads the document at any time. */
  lemma OneReaderAtATime(arrivedHeld: bool, events: seq<Event>, i: nat, j: nat)
    requires var runs := Run(arrivedHeld, events).runs;
             i < |runs| && j < |runs| && runs[i].phase.Holding? && runs[j].phase.Holding?
    ensures i == j
  {
    EveryRunKeeps(arrivedHeld, events);
  }

  /** A delivery the window swallows asks for what a started run was already asked for. */
  lemma SwallowedUploadHasItsRun(arrivedHeld: bool, events: seq<Event>, target: Option<nat>, mayOpen: bool)
    requires Run(arrivedHeld, events + [Upload(target, mayOpen)]).runs == Run(arrivedHeld, events).runs
    ensures exists i: nat | i < |Run(arrivedHeld, events).runs| ::
              Run(arrivedHeld, events).runs[i].request.target == target &&
              Run(arrivedHeld, events).runs[i].request.key == UploadKey(target)
  {
    EveryRunKeeps(arrivedHeld, events);
    RunSnoc(arrivedHeld, events, Upload(target, mayOpen));
    var s := Run(arrivedHeld, events);
    assert UploadKey(target) in s.window;
    var i: nat :| i < |s.runs| && StartedOn(s.runs[i], UploadKey(target));
  }

  lemma EndedKept(s: State, e: Event, i: nat)
    requires i < |s.runs| && Ended(s.runs[i].phase)
    ensures i < |Step(s, e).runs| && Step(s, e).runs[i] == s.runs[i]
  {
  }

  /** A run that has ended is never tried again: nothing of it changes in any continuation. */
  lemma {:induction false} EndedStaysEnded(arrivedHeld: bool, events: seq<Event>, more: seq<Event>, i: nat)
    requires i < |Run(arrivedHeld, events).runs| && Ended(Run(arrivedHeld, events).runs[i].phase)
    ensures i < |Run(arrivedHeld, events + more).runs|
    ensures Run(arrivedHeld, events + more).runs[i] == Run(arrivedHeld, events).runs[i]
  {
    if more == [] {
      assert events + more == events;
    } else {
      var n := |more| - 1;
      EndedStaysEnded(arrivedHeld, events, more[..n], i);
      assert events + more == events + more[..n] + [more[n]];
      RunSnoc(arrivedHeld, events + more[..n], more[n]);
      EndedKept(Run(arrivedHeld, events + more[..n]), more[n], i);
    }
  }

  /** What an attempt throws at this step, if it throws. */
  function Thrown(r: Delivery, e: Event): Option<ReadError>
    requires InTurn(r, e)
  {
    match e
    case Pay(_, PaidAndFailed(error)) => Some(error)
    case Pay(_, FailedUnpaid(error)) => Some(error)
    case Record(_, refusal) =>
      if refusal.Some? then refusal
      else if r.phase.at.next.ThenFail? then Some(r.phase.at.next.error)
      else None
    case File(_, refusal) => refusal
    case Resolve(_, refusal) => refusal
    case PlaceHold(_, refusal) => refusal
    case OpenLines(_, _, refusal) => refusal
    case Link(_, refusal) => refusal
    case Die(_) => Some(Transient)
    case _ => None
  }

  /** A failure classed as settled is the run's last: no continuation pays for the document again inside it. */
  lemma SettledFailureIsNotPaidAgain(arrivedHeld: bool, events: seq<Event>, e: Event, more: seq<Event>)
    requires ClaimEvent(e) && e.i < |Run(arrivedHeld, events).runs| && InTurn(Run(arrivedHeld, events).runs[e.i], e)
    requires var thrown := Thrown(Run(arrivedHeld, events).runs[e.i], e); thrown.Some? && SettledFailure(thrown.value)
    ensures var failed := Run(arrivedHeld, events + [e]);
            var later := Run(arrivedHeld, events + [e] + more);
            e.i < |failed.runs| && e.i < |later.runs| &&
            failed.runs[e.i].phase == Failed(Thrown(Run(arrivedHeld, events).runs[e.i], e).value) &&
            later.runs[e.i] == failed.runs[e.i]
  {
    RunSnoc(arrivedHeld, events, e);
    ThrownSettledFails(Run(arrivedHeld, events), e);
    EndedStaysEnded(arrivedHeld, events + [e], more, e.i);
  }

  lemma ThrownSettledFails(s: State, e: Event)
    requires ClaimEvent(e) && e.i < |s.runs| && InTurn(s.runs[e.i], e)
    requires Thrown(s.runs[e.i], e).Some? && SettledFailure(Thrown(s.runs[e.i], e).value)
    ensures e.i < |Step(s, e).runs| && Step(s, e).runs[e.i].phase == Failed(Thrown(s.runs[e.i], e).value)
  {
  }

  /** The steps from one state to the last of a list of states. */
  lemma {:induction false} RunThrough(arrivedHeld: bool, events: seq<Event>, more: seq<Event>, states: seq<State>)
    requires |states| == |more| + 1 && states[0] == Run(arrivedHeld, events)
    requires forall k: nat | k < |more| :: Step(states[k], more[k]) == states[k + 1]
    ensures Run(arrivedHeld, events + more) == states[|more|]
  {
    if more == [] {
      assert events + more == events;
    } else {
      var n := |more| - 1;
      RunThrough(arrivedHeld, events, more[..n], states[..|states| - 1]);
      assert events + more == events + more[..n] + [more[n]];
      RunSnoc(arrivedHeld, events + more[..n], more[n]);
    }
  }

  // -------------------------------------------------------------------------
  // An attempt with every call answered files the document
  // -------------------------------------------------------------------------

  function FilingEvents(i: nat, t: DocType): seq<Event> {
    [Begin(i, None), Guard(i), File(i, None), Resolve(i, None), Pay(i, Read(t, false)), Record(i, None), Link(i, None)]
  }

  function Put(s: State, i: nat, r: Delivery): State
    requires i < |s.runs|
  {
    s.(runs := s.runs[i := r])
  }

  /** The states of an attempt that reads, pays, records and links. */
  function FilingStates(s: State, i: nat, c: nat, t: DocType): seq<State>
    requires i < |s.runs|
  {
    var r := s.runs[i].(attempts := s.runs[i].attempts + 1);
    var s1 := Put(s, i, r.(phase := Holding(AtGuard))).(claim := Some(i));
    var s2 := Put(s1, i, r.(phase := Holding(AtResolve)));
    var s4 := Put(s1, i, r.(phase := Holding(AtPay)));
    var s5 := Put(s1, i, r.(paid := r.paid + 1, phase := Holding(AtRecord(t, ThenLink)))).(paid := s.paid + 1);
    var s6 := Put(s5, i, r.(paid := r.paid + 1, phase := Holding(AtLink))).(facts := s.facts.(recorded := Some(t)));
    var s7 := Put(s6, i, r.(paid := r.paid + 1, phase := Done(ReadIt)))
      .(claim := None, succeeded := s.succeeded + 1, facts := s6.facts.(links := s.facts.links + {c}));
    [s, s1, s2, s2, s4, s5, s6, s7]
  }

  predicate CanAttempt(s: State, i: nat, c: nat) {
    i < |s.runs| && s.runs[i].phase.Waiting? && s.runs[i].request.target == Some(c) && s.claim.None?
  }

  lemma FilingFirstSteps(s: State, i: nat, c: nat, t: DocType)
    requires CanAttempt(s, i, c) && s.facts.recorded.None?
    ensures var (e, states) := (FilingEvents(i, t), FilingStates(s, i, c, t));
            Step(states[0], e[0]) == states[1] && Step(states[1], e[1]) == states[2] &&
            Step(states[2], e[2]) == states[3] && Step(states[3], e[3]) == states[4]
  {
  }

  lemma FilingLastSteps(s: State, i: nat, c: nat, t: DocType)
    requires CanAttempt(s, i, c) && s.facts.recorded.None?
    ensures var (e, states) := (FilingEvents(i, t), FilingStates(s, i, c, t));
            Step(states[4], e[4]) == states[5] && Step(states[5], e[5]) == states[6]
  {
  }

  lemma FilingLinks(s: State, i: nat, c: nat, t: DocType)
    requires CanAttempt(s, i, c) && s.facts.recorded.None?
    ensures var (e, states) := (FilingEvents(i, t), FilingStates(s, i, c, t)); Step(states[6], e[6]) == states[7]
  {
  }

  /** With a reading on record the attempt is over by its third await; the rest change nothing. */
  function RecordedStates(s: State, i: nat, t: DocType): seq<State> {
    var e := FilingEvents(i, t);
    var s3 := Step(Step(Step(s, e[0]), e[1]), e[2]);
    [s, Step(s, e[0]), Step(Step(s, e[0]), e[1]), s3, s3, s3, s3, s3]
  }

  lemma RecordedSteps(s: State, i: nat, c: nat, t: DocType)
    requires CanAttempt(s, i, c) && s.facts.recorded.Some?
    ensures var (e, states) := (FilingEvents(i, t), RecordedStates(s, i, t));
            var s3 := states[3];
            i < |s3.runs| && s3.runs[i].phase.Done? && c in s3.facts.links && s3.claim.None? && s3.paid == s.paid
  {
    var s1 := Step(s, Begin(i, None));
    assert s1 == Put(s, i, s.runs[i].(attempts := s.runs[i].attempts + 1, phase := Holding(AtGuard))).(claim := Some(i));
  }

  lemma DoneIsOver(s: State, i: nat, t: DocType)
    requires i < |s.runs| && s.runs[i].phase.Done?
    ensures forall k :: 3 <= k < 7 ==> Step(s, FilingEvents(i, t)[k]) == s
  {
  }

  /**
   Whatever happened before, once nobody holds the claim one answered attempt of a waiting
   attachment ends with its document on its case, and it pays only if nothing was recorded.
   */
  lemma AnsweredAttemptFiles(arrivedHeld: bool, events: seq<Event>, i: nat, c: nat, t: DocType)
    requires CanAttempt(Run(arrivedHeld, events), i, c)
    ensures var s := Run(arrivedHeld, events);
            var after := Run(arrivedHeld, events + FilingEvents(i, t));
            i < |after.runs| && after.runs[i].phase.Done? && c in after.facts.links && after.claim.None? &&
            after.paid == s.paid + if s.facts.recorded.None? then 1 else 0
  {
    var s := Run(arrivedHeld, events);
    if s.facts.recorded.None? {
      FilingFirstSteps(s, i, c, t);
      FilingLastSteps(s, i, c, t);
      FilingLinks(s, i, c, t);
      RunThrough(arrivedHeld, events, FilingEvents(i, t), FilingStates(s, i, c, t));
    } else {
      RecordedSteps(s, i, c, t);
      DoneIsOver(RecordedStates(s, i, t)[3], i, t);
      RunThrough(arrivedHeld, events, FilingEvents(i, t), RecordedStates(s, i, t));
    }
  }
}
