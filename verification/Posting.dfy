/**
 Posting an approved write-back to QuickBooks: the job (`postWritebackJob`), the
 store functions around it (requeue, void), the runtime's idempotency window and
 one-job-per-connection limit, and the ledger the sends land in.

 One connection is modelled, because the runtime keys its limit on it: at most
 one job runs at a time. Every await of the job is a point where the run may die.
 A send has a fate the job does not see; `recorded` says whether the run that
 made the send lived to record its attempt.
 */
module Posting {

  datatype Option<+T> = None | Some(value: T)

  datatype EntryKind = JournalEntry | PaymentApplication

  /** `unique (decision_id, method)`: a decision and a method name one row. */
  datatype WritebackId = WritebackId(decision: nat, kind: EntryKind)

  datatype Status = Pending | Succeeded | Failed

  datatype Reason =
    | NoInvoice | InvoiceNotFound | InvoiceLookupFailed | BuildFailed | LinesChanged
    | SendFailed | UnknownOutcome | ReadbackFailed | ReadbackMismatch | AmbiguousReference
    | SentAndVerified | FoundOnRetry

  datatype Row = Row(status: Status, attempts: seq<Reason>)

  /** `NOTHING_SENT_REASONS`: the attempt made no write request at all. */
  predicate IsNothingSent(r: Reason) {
    r.NoInvoice? || r.InvoiceNotFound? || r.InvoiceLookupFailed? || r.BuildFailed? || r.LinesChanged?
  }

  type NothingSentReason = r: Reason | IsNothingSent(r) witness NoInvoice

  /** The runtime's idempotency key: the row on a first send, a fresh id on a person's retry. */
  datatype Key = First(w: WritebackId) | Fresh(n: nat)

  datatype Request = Request(w: WritebackId, key: Key, retry: bool)

  /** Where one send got to. `Merged` is a repeat the ledger answered from its request id. */
  datatype Fate = Landed | Merged | Gone | InFlight

  datatype SendMade = SendMade(w: WritebackId, fate: Fate, recorded: bool)

  datatype Point = AtLoad | AtBuild | AtLook | AtSend | AtReadBack | AtRecord(status: Status, reason: Reason)

  datatype Job = Idle | Running(w: WritebackId, retry: bool, at: Point, sent: bool)

  /** A void whose ledger read is done and whose locked checks are still to come: what stood at the ledger's answer. */
  datatype Asked = Asked(decision: nat, rows: set<WritebackId>, sendsThen: nat, inFlightThen: set<nat>, attempts: seq<Reason>)

  datatype State = State(
    dedupes: bool,
    rows: map<WritebackId, Row>,
    sends: seq<SendMade>,
    queue: set<Request>,
    window: set<Key>,
    nextFresh: nat,
    job: Job,
    asked: set<Asked>,
    voided: map<nat, Asked>)

  /** What the environment did with one send. */
  datatype Reply = Answered | ReplyLost | Refused | NeverArrived | ArrivesLate

  datatype Event =
    | InsertRow(w: WritebackId)
    | QueueFirst(w: WritebackId)
    | PressRetry(w: WritebackId, queued: bool)
    | Deliver(request: Request)
    | Expire(key: Key)
    | Load(allowed: bool)
    | Build(failure: Option<NothingSentReason>)
    | Look(readable: bool, matches: bool)
    | Send(reply: Reply)
    | ReadBack(readable: bool, matches: bool)
    | Record(stored: bool)
    | Die
    | LateLanding(i: nat)
    | AskLedger(decision: nat)
    | CommitVoid(asked: Asked)

  // -------------------------------------------------------------------------
  // What the rows and the ledger say
  // -------------------------------------------------------------------------

  predicate NothingWasSent(attempts: seq<Reason>) {
    |attempts| > 0 && forall k :: 0 <= k < |attempts| ==> IsNothingSent(attempts[k])
  }

  /** The row's entry as the case page sees it: `nothingSent`. */
  predicate NothingSent(row: Row) {
    row.status.Failed? && NothingWasSent(row.attempts)
  }

  predicate LandedFor(sends: seq<SendMade>, i: nat, w: WritebackId) {
    i < |sends| && sends[i].w == w && sends[i].fate.Landed?
  }

  /** The books hold an entry carrying this row's reference. */
  predicate Holds(sends: seq<SendMade>, w: WritebackId) {
    exists i: nat | i < |sends| :: LandedFor(sends, i, w)
  }

  predicate HoldsTwo(sends: seq<SendMade>, w: WritebackId) {
    exists i: nat, j: nat | i < |sends| && j < |sends| ::
      i < j && LandedFor(sends, i, w) && LandedFor(sends, j, w)
  }

  /** No row has two entries in the books. */
  predicate AtMostOneEntry(sends: seq<SendMade>) {
    forall i: nat, j: nat | i < |sends| && j < |sends| ::
      sends[i].w == sends[j].w && sends[i].fate.Landed? && sends[j].fate.Landed? ==> i == j
  }

  function StillInFlight(sends: seq<SendMade>): set<nat> {
    set i: nat | i < |sends| && sends[i].fate.InFlight?
  }

  function RowsOf(s: State, decision: nat): set<WritebackId> {
    set w | w in s.rows.Keys && w.decision == decision
  }

  /** The settlement the card offers to void (`voidable`). */
  predicate CardVoidable(s: State, decision: nat) {
    decision !in s.voided &&
    (exists w :: w in s.rows.Keys && w.decision == decision && w.kind.JournalEntry? && NothingSent(s.rows[w])) &&
    (forall w :: w in s.rows.Keys && w.decision == decision ==>
      NothingSent(s.rows[w]) || (s.rows[w].status.Pending? && s.rows[w].attempts == []))
  }

  /** `voidSettlementPosting`'s checks on our own rows, made before and under the lock. */
  predicate VoidCheck(s: State, decision: nat) {
    var entry := WritebackId(decision, JournalEntry);
    decision !in s.voided &&
    (forall w :: w in s.rows.Keys && w.decision == decision ==> !s.rows[w].status.Succeeded?) &&
    entry in s.rows.Keys && s.rows[entry].status.Failed? && NothingWasSent(s.rows[entry].attempts) &&
    (forall w :: w in s.rows.Keys && w.decision == decision && w != entry ==>
      s.rows[w].attempts == [] || NothingWasSent(s.rows[w].attempts))
  }

  // -------------------------------------------------------------------------
  // The steps
  // -------------------------------------------------------------------------

  function Init(dedupes: bool): State {
    State(dedupes, map[], [], {}, {}, 0, Idle, {}, map[])
  }

  function LandingFate(s: State, w: WritebackId): Fate {
    if s.dedupes && Holds(s.sends, w) then Merged else Landed
  }

  function At(s: State, at: Point): State
    requires s.job.Running?
  {
    s.(job := s.job.(at := at))
  }

  function Fail(s: State, reason: Reason): State
    requires s.job.Running?
  {
    At(s, AtRecord(Failed, reason))
  }

  /** `writebackForPosting` and the refusals that record nothing. */
  function LoadStep(s: State, allowed: bool): State
    requires s.job.Running? && s.job.at.AtLoad?
  {
    var w := s.job.w;
    if !allowed || w !in s.rows.Keys then s.(job := Idle)
    else if s.rows[w].status.Succeeded? then s.(job := Idle)
    else if w.decision in s.voided then s.(job := Idle)
    else if !s.rows[w].status.Pending? then s.(job := Idle)
    else if w.kind.PaymentApplication? &&
            !(WritebackId(w.decision, JournalEntry) in s.rows.Keys &&
              s.rows[WritebackId(w.decision, JournalEntry)].status.Succeeded?) then s.(job := Idle)
    else At(s, AtBuild)
  }

  function LookStep(s: State, readable: bool, matches: bool): State
    requires s.job.Running? && s.job.at.AtLook?
  {
    var w := s.job.w;
    if !readable then Fail(s, ReadbackFailed)
    else if HoldsTwo(s.sends, w) then Fail(s, AmbiguousReference)
    else if Holds(s.sends, w) then
      if matches then At(s, AtRecord(Succeeded, FoundOnRetry)) else Fail(s, ReadbackMismatch)
    else At(s, AtSend)
  }

  function SendStep(s: State, reply: Reply): State
    requires s.job.Running? && s.job.at.AtSend?
  {
    var w := s.job.w;
    var fate :=
      match reply
      case Answered => LandingFate(s, w)
      case ReplyLost => LandingFate(s, w)
      case Refused => Gone
      case NeverArrived => Gone
      case ArrivesLate => InFlight;
    var next :=
      match reply
      case Answered => AtReadBack
      case Refused => AtRecord(Failed, SendFailed)
      case _ => AtRecord(Failed, UnknownOutcome);
    s.(sends := s.sends + [SendMade(w, fate, false)], job := s.job.(at := next, sent := true))
  }

  /** `recordWritebackAttempt`, then the run ends; a record the database refuses ends it unrecorded. */
  function RecordStep(s: State, stored: bool): State
    requires s.job.Running? && s.job.at.AtRecord?
  {
    var w := s.job.w;
    if !stored || w !in s.rows.Keys then s.(job := Idle)
    else
      var row := Row(s.job.at.status, s.rows[w].attempts + [s.job.at.reason]);
      var sends :=
        if s.job.sent && |s.sends| > 0 then
          s.sends[|s.sends| - 1 := s.sends[|s.sends| - 1].(recorded := true)]
        else s.sends;
      s.(rows := s.rows[w := row], sends := sends, job := Idle)
  }

  /** The retry route: a failed row goes back to pending, and a request with a fresh key is queued. */
  function RetryStep(s: State, w: WritebackId, queued: bool): State {
    if w !in s.rows.Keys || s.rows[w].status.Succeeded? || w.decision in s.voided then s
    else
      var rows := s.rows[w := s.rows[w].(status := Pending)];
      if queued then
        s.(rows := rows, queue := s.queue + {Request(w, Fresh(s.nextFresh), true)}, nextFresh := s.nextFresh + 1)
      else s.(rows := rows)
  }

  function AskStep(s: State, d: nat): State {
    if VoidCheck(s, d) && (forall w :: w in RowsOf(s, d) ==> !Holds(s.sends, w)) then
      var attempts := s.rows[WritebackId(d, JournalEntry)].attempts;
      s.(asked := s.asked + {Asked(d, RowsOf(s, d), |s.sends|, StillInFlight(s.sends), attempts)})
    else s
  }

  /** The checks once more under the lock; a row added since the ledger was asked refuses. */
  function CommitVoidStep(s: State, a: Asked): State {
    if a in s.asked && VoidCheck(s, a.decision) && a.rows == RowsOf(s, a.decision) then
      s.(voided := s.voided[a.decision := a])
    else s
  }

  /** One step; an event that is not enabled changes nothing. */
  function Step(s: State, e: Event): State {
    match e
    case InsertRow(w) =>
      if w in s.rows.Keys then s else s.(rows := s.rows[w := Row(Pending, [])])
    case QueueFirst(w) =>
      // Only a journal entry is queued by its approval; a Payment is sent from the case page.
      if w in s.rows.Keys && w.kind.JournalEntry? then s.(queue := s.queue + {Request(w, First(w), false)}) else s
    case PressRetry(w, queued) => RetryStep(s, w, queued)
    case Deliver(r) =>
      if s.job.Idle? && r in s.queue && r.key !in s.window then
        s.(window := s.window + {r.key}, job := Running(r.w, r.retry, AtLoad, false))
      else s
    case Expire(k) => s.(window := s.window - {k})
    case Load(allowed) => if s.job.Running? && s.job.at.AtLoad? then LoadStep(s, allowed) else s
    case Build(failure) =>
      if s.job.Running? && s.job.at.AtBuild? then
        if failure.Some? then Fail(s, failure.value)
        else if s.job.retry then At(s, AtLook) else At(s, AtSend)
      else s
    case Look(readable, matches) =>
      if s.job.Running? && s.job.at.AtLook? then LookStep(s, readable, matches) else s
    case Send(reply) => if s.job.Running? && s.job.at.AtSend? then SendStep(s, reply) else s
    case ReadBack(readable, matches) =>
      if s.job.Running? && s.job.at.AtReadBack? then
        if !readable then Fail(s, ReadbackFailed)
        else if !matches then Fail(s, ReadbackMismatch)
        else At(s, AtRecord(Succeeded, SentAndVerified))
      else s
    case Record(stored) => if s.job.Running? && s.job.at.AtRecord? then RecordStep(s, stored) else s
    case Die => s.(job := Idle)
    case LateLanding(i) =>
      if i < |s.sends| && s.sends[i].fate.InFlight? then
        s.(sends := s.sends[i := s.sends[i].(fate := LandingFate(s, s.sends[i].w))])
      else s
    case AskLedger(d) => AskStep(s, d)
    case CommitVoid(a) => CommitVoidStep(s, a)
  }

  /** The state a run of events leaves, from an empty store. */
  function Run(dedupes: bool, events: seq<Event>): State {
    if events == [] then Init(dedupes)
    else Step(Run(dedupes, events[..|events| - 1]), events[|events| - 1])
  }

  lemma RunSnoc(dedupes: bool, events: seq<Event>, e: Event)
    ensures Run(dedupes, events + [e]) == Step(Run(dedupes, events), e)
  {
    assert (events + [e])[..|events|] == events;
  }

  // -------------------------------------------------------------------------
  // What every run keeps
  // -------------------------------------------------------------------------

  predicate JobInv(s: State) {
    s.job.Running? && !s.job.at.AtLoad? ==>
      var w := s.job.w;
      w in s.rows.Keys && s.rows[w].status.Pending? && w.decision !in s.voided &&
      (s.job.at.AtReadBack? ==> s.job.sent) && (s.job.sent ==> s.job.at.AtReadBack? || s.job.at.AtRecord?) &&
      (s.job.sent ==> |s.sends| > 0 && s.sends[|s.sends| - 1].w == w && !s.sends[|s.sends| - 1].recorded) &&
      (s.job.at.AtReadBack? ==> Holds(s.sends, w)) &&
      (s.job.at.AtRecord? && s.job.at.status.Succeeded? ==> Holds(s.sends, w)) &&
      (s.job.at.AtRecord? ==> !s.job.at.status.Pending?) &&
      (s.job.at.AtRecord? && s.job.sent ==> !IsNothingSent(s.job.at.reason)) &&
      (w.kind.PaymentApplication? ==> EntryVerified(s.rows, w.decision))
  }

  predicate EntryVerified(rows: map<WritebackId, Row>, decision: nat) {
    WritebackId(decision, JournalEntry) in rows.Keys &&
    rows[WritebackId(decision, JournalEntry)].status.Succeeded?
  }

  /** A recorded send left an attempt on its row that says it may have been sent. */
  predicate SendInv(rows: map<WritebackId, Row>, send: SendMade) {
    var w := send.w;
    w in rows.Keys &&
    (send.recorded ==> exists k :: 0 <= k < |rows[w].attempts| && !IsNothingSent(rows[w].attempts[k])) &&
    (w.kind.PaymentApplication? ==> EntryVerified(rows, w.decision))
  }

  predicate StoreInv(rows: map<WritebackId, Row>, sends: seq<SendMade>, voided: map<nat, Asked>) {
    (forall i: nat | i < |sends| :: SendInv(rows, sends[i])) &&
    (forall w :: w in rows.Keys && rows[w].status.Succeeded? ==> Holds(sends, w)) &&
    (forall d :: d in voided ==>
      WritebackId(d, JournalEntry) in rows.Keys && rows[WritebackId(d, JournalEntry)].status.Failed?)
  }

  predicate Inv(s: State) {
    JobInv(s) &&
    (s.job.Running? && s.job.at.AtLoad? ==> !s.job.sent) &&
    StoreInv(s.rows, s.sends, s.voided) &&
    (s.dedupes ==> AtMostOneEntry(s.sends))
  }

  /** An entry once in the books stays there. */
  lemma HoldsKept(s: State, e: Event, w: WritebackId)
    requires Holds(s.sends, w)
    ensures Holds(Step(s, e).sends, w)
  {
    var i: nat :| i < |s.sends| && LandedFor(s.sends, i, w);
    assert LandedFor(Step(s, e).sends, i, w);
  }

  lemma SendStepKept(s: State, reply: Reply)
    requires Inv(s) && s.job.Running? && s.job.at.AtSend?
    ensures Inv(SendStep(s, reply))
  {
    var t := SendStep(s, reply);
    var n := |s.sends|;
    var w := s.job.w;
    forall v | Holds(s.sends, v) ensures Holds(t.sends, v) { HoldsKept(s, Send(reply), v); }
    assert t.sends[n].w == w;
    if reply.Answered? {
      if t.sends[n].fate.Landed? { assert LandedFor(t.sends, n, w); }
    }
    forall i: nat | i < |t.sends| ensures SendInv(t.rows, t.sends[i]) {
      if i < n { assert SendInv(s.rows, s.sends[i]); }
    }
    if s.dedupes && t.sends[n].fate.Landed? {
      forall i: nat | i < n && s.sends[i].fate.Landed? ensures s.sends[i].w != w {
        assert !LandedFor(s.sends, i, w);
      }
    }
  }

  lemma RecordStepKept(s: State, stored: bool)
    requires Inv(s) && s.job.Running? && s.job.at.AtRecord?
    ensures Inv(RecordStep(s, stored))
  {
    var t := RecordStep(s, stored);
    forall v | Holds(s.sends, v) ensures Holds(t.sends, v) { HoldsKept(s, Record(stored), v); }
    if stored {
      var w := s.job.w;
      var n := |s.rows[w].attempts|;
      assert t.rows[w].attempts[n] == s.job.at.reason;
      forall i: nat | i < |t.sends| ensures SendInv(t.rows, t.sends[i]) {
        assert SendInv(s.rows, s.sends[i]);
        if s.sends[i].recorded && s.sends[i].w == w {
          var k :| 0 <= k < n && !IsNothingSent(s.rows[w].attempts[k]);
          assert t.rows[w].attempts[k] == s.rows[w].attempts[k];
        }
      }
    } else {
      forall i: nat | i < |t.sends| ensures SendInv(t.rows, t.sends[i]) { assert SendInv(s.rows, s.sends[i]); }
    }
  }

  lemma LateLandingKept(s: State, i: nat)
    requires Inv(s)
    ensures Inv(Step(s, LateLanding(i)))
  {
    var t := Step(s, LateLanding(i));
    if t != s {
      forall v | Holds(s.sends, v) ensures Holds(t.sends, v) { HoldsKept(s, LateLanding(i), v); }
      forall j: nat | j < |t.sends| ensures SendInv(t.rows, t.sends[j]) { assert SendInv(s.rows, s.sends[j]); }
      if s.dedupes { LateLandingKeepsOneEntry(s, i); }
    }
  }

  lemma LateLandingKeepsOneEntry(s: State, i: nat)
    requires s.dedupes && AtMostOneEntry(s.sends)
    ensures AtMostOneEntry(Step(s, LateLanding(i)).sends)
  {
    var t := Step(s, LateLanding(i));
    if t != s && t.sends[i].fate.Landed? {
      forall j: nat | j < |s.sends| && s.sends[j].fate.Landed? ensures s.sends[j].w != s.sends[i].w {
        assert !LandedFor(s.sends, j, s.sends[i].w);
      }
    }
  }

  lemma InsertKept(s: State, w: WritebackId)
    requires Inv(s)
    ensures Inv(Step(s, InsertRow(w)))
  {
    var t := Step(s, InsertRow(w));
    assert forall v :: v in s.rows.Keys ==> v in t.rows.Keys && t.rows[v] == s.rows[v];
    forall i: nat | i < |t.sends| ensures SendInv(t.rows, t.sends[i]) { assert SendInv(s.rows, s.sends[i]); }
  }

  lemma RetryKeepsStore(s: State, w: WritebackId, queued: bool)
    requires StoreInv(s.rows, s.sends, s.voided)
    ensures StoreInv(RetryStep(s, w, queued).rows, s.sends, s.voided)
  {
    var rows := RetryStep(s, w, queued).rows;
    assert rows.Keys == s.rows.Keys;
    forall v | v in s.rows.Keys
      ensures rows[v].attempts == s.rows[v].attempts
      ensures s.rows[v].status.Succeeded? <==> rows[v].status.Succeeded?
    {
    }
    forall i: nat | i < |s.sends| ensures SendInv(rows, s.sends[i]) { assert SendInv(s.rows, s.sends[i]); }
  }

  lemma RetryKept(s: State, w: WritebackId, queued: bool)
    requires Inv(s)
    ensures Inv(RetryStep(s, w, queued))
  {
    RetryKeepsStore(s, w, queued);
  }

  lemma JobStepKept(s: State, e: Event)
    requires Inv(s) && (e.Load? || e.Build? || e.Look? || e.ReadBack?)
    ensures Inv(Step(s, e))
  {
    if e.Load? || e.Build? {
    } else if e.Look? {
    } else {
    }
  }

  lemma QuietStepKept(s: State, e: Event)
    requires Inv(s) && (e.QueueFirst? || e.Deliver? || e.Expire? || e.Die? || e.AskLedger? || e.CommitVoid?)
    ensures Inv(Step(s, e))
  {
  }

  lemma StepKept(s: State, e: Event)
    requires Inv(s)
    ensures Inv(Step(s, e)) && Step(s, e).dedupes == s.dedupes
  {
    match e
    case Send(reply) => if s.job.Running? && s.job.at.AtSend? { SendStepKept(s, reply); }
    case Record(stored) => if s.job.Running? && s.job.at.AtRecord? { RecordStepKept(s, stored); }
    case LateLanding(i) => LateLandingKept(s, i);
    case InsertRow(w) => InsertKept(s, w);
    case PressRetry(w, queued) => RetryKept(s, w, queued);
    case Load(allowed) => JobStepKept(s, e);
    case Build(failure) => JobStepKept(s, e);
    case Look(readable, matches) => JobStepKept(s, e);
    case ReadBack(readable, matches) => JobStepKept(s, e);
    case _ => QuietStepKept(s, e);
  }

  lemma InitKept(dedupes: bool)
    ensures Inv(Init(dedupes))
  {
  }

  /** The invariant of every run, whatever the ledger does with request ids. */
  lemma {:induction false} EveryRunKeeps(dedupes: bool, events: seq<Event>)
    ensures Inv(Run(dedupes, events)) && Run(dedupes, events).dedupes == dedupes
  {
    if events == [] {
      InitKept(dedupes);
    } else {
      var before := events[..|events| - 1];
      EveryRunKeeps(dedupes, before);
      StepKept(Run(dedupes, before), events[|events| - 1]);
    }
  }

  // -------------------------------------------------------------------------
  // A posted row is final, and its Payment follows it
  // -------------------------------------------------------------------------

  /** A row that succeeded has its entry in the books, and no later step takes either away. */
  lemma PostedIsFinal(dedupes: bool, events: seq<Event>, e: Event, w: WritebackId)
    requires w in Run(dedupes, events).rows.Keys && Run(dedupes, events).rows[w].status.Succeeded?
    ensures Holds(Run(dedupes, events).sends, w)
    ensures w in Run(dedupes, events + [e]).rows.Keys && Run(dedupes, events + [e]).rows[w].status.Succeeded?
  {
    EveryRunKeeps(dedupes, events);
    RunSnoc(dedupes, events, e);
    SucceededKept(Run(dedupes, events), e, w);
  }

  lemma SucceededKept(s: State, e: Event, w: WritebackId)
    requires Inv(s) && w in s.rows.Keys && s.rows[w].status.Succeeded?
    ensures w in Step(s, e).rows.Keys && Step(s, e).rows[w].status.Succeeded?
  {
  }

  /** Nothing of a Payment is ever sent before its journal entry verified. */
  lemma PaymentFollowsItsEntry(dedupes: bool, events: seq<Event>, i: nat)
    requires i < |Run(dedupes, events).sends| && Run(dedupes, events).sends[i].w.kind.PaymentApplication?
    ensures var s := Run(dedupes, events);
            var entry := WritebackId(s.sends[i].w.decision, JournalEntry);
            entry in s.rows.Keys && s.rows[entry].status.Succeeded? && Holds(s.sends, entry)
  {
    EveryRunKeeps(dedupes, events);
    var s := Run(dedupes, events);
    assert SendInv(s.rows, s.sends[i]);
  }

  // -------------------------------------------------------------------------
  // At most one entry for each row
  // -------------------------------------------------------------------------

  /** With a ledger that honours the request id, no schedule at all gives a row two entries. */
  lemma RequestIdGivesOneEntry(events: seq<Event>)
    ensures AtMostOneEntry(Run(true, events).sends)
  {
    EveryRunKeeps(true, events);
  }

  /** What a schedule may do that looking before a retry cannot make up for. */
  datatype Faults = Faults(keysExpire: bool, sendsArriveLate: bool, retryOvertakesFirst: bool)

  const NO_FAULTS := Faults(false, false, false)

  /**
   Without faults no key leaves the window, no send arrives after its run was told it failed,
   and a person retries a journal entry only once its first request has been started (the card
   waits five minutes to offer it).
   */
  predicate Allowed(f: Faults, s: State, e: Event) {
    match e
    case Expire(_) => f.keysExpire
    case Send(reply) => reply.ArrivesLate? ==> f.sendsArriveLate
    case PressRetry(w, _) => w.kind.JournalEntry? && First(w) !in s.window ==> f.retryOvertakesFirst
    case _ => true
  }

  predicate AllowedRun(f: Faults, dedupes: bool, events: seq<Event>) {
    forall k :: 0 <= k < |events| ==> Allowed(f, Run(dedupes, events[..k]), events[k])
  }

  predicate StartedFirst(window: set<Key>, w: WritebackId) {
    w.kind.JournalEntry? ==> First(w) in window
  }

  predicate RequestInv(window: set<Key>, r: Request) {
    (r.retry <==> r.key.Fresh?) &&
    (r.key.First? ==> r.key.w == r.w && r.w.kind.JournalEntry?) &&
    (r.key.Fresh? ==> StartedFirst(window, r.w))
  }

  predicate SendsInv(window: set<Key>, sends: seq<SendMade>) {
    AtMostOneEntry(sends) &&
    forall i: nat | i < |sends| :: !sends[i].fate.InFlight? && StartedFirst(window, sends[i].w)
  }

  predicate OrderlyJob(s: State) {
    s.job.Running? ==>
      StartedFirst(s.window, s.job.w) &&
      (!s.job.retry && !s.job.sent ==> forall i: nat | i < |s.sends| :: s.sends[i].w != s.job.w) &&
      (s.job.at.AtSend? ==> !Holds(s.sends, s.job.w)) &&
      (s.job.at.AtLook? ==> s.job.retry)
  }

  predicate OrderlyInv(s: State) {
    SendsInv(s.window, s.sends) &&
    (forall r :: r in s.queue ==> RequestInv(s.window, r)) &&
    OrderlyJob(s)
  }

  lemma OrderlySendKept(s: State, reply: Reply)
    requires Inv(s) && OrderlyInv(s) && s.job.Running? && s.job.at.AtSend? && !reply.ArrivesLate?
    ensures OrderlyInv(SendStep(s, reply))
  {
    var t := SendStep(s, reply);
    var n := |s.sends|;
    forall i: nat | i < n && s.sends[i].fate.Landed? ensures s.sends[i].w != s.job.w {
      assert !LandedFor(s.sends, i, s.job.w);
    }
    assert t.sends[..n] == s.sends;
  }

  lemma OrderlyDeliverKept(s: State, r: Request)
    requires Inv(s) && OrderlyInv(s)
    ensures OrderlyInv(Step(s, Deliver(r)))
  {
    var t := Step(s, Deliver(r));
    forall q | q in t.queue ensures RequestInv(t.window, q) { assert RequestInv(s.window, q); }
    if t != s { assert RequestInv(s.window, r); }
  }

  lemma OrderlyRetryKept(s: State, w: WritebackId, queued: bool)
    requires Inv(s) && OrderlyInv(s) && Allowed(NO_FAULTS, s, PressRetry(w, queued))
    ensures OrderlyInv(RetryStep(s, w, queued))
  {
    var t := RetryStep(s, w, queued);
    forall q | q in t.queue ensures RequestInv(t.window, q) {
      if q in s.queue { assert RequestInv(s.window, q); }
    }
  }

  lemma OrderlyJobKept(s: State, e: Event)
    requires Inv(s) && OrderlyInv(s) && (e.Load? || e.Build? || e.Look? || e.ReadBack? || e.Die?)
    ensures OrderlyInv(Step(s, e))
  {
  }

  lemma OrderlyRecordKept(s: State, stored: bool)
    requires Inv(s) && OrderlyInv(s)
    ensures OrderlyInv(Step(s, Record(stored)))
  {
    var t := Step(s, Record(stored));
    forall q | q in t.queue ensures RequestInv(t.window, q) { assert RequestInv(s.window, q); }
    forall i: nat | i < |t.sends|
      ensures t.sends[i].w == s.sends[i].w && t.sends[i].fate == s.sends[i].fate
    {
    }
  }

  lemma OrderlyStoreKept(s: State, e: Event)
    requires Inv(s) && OrderlyInv(s)
    requires e.InsertRow? || e.QueueFirst? || e.LateLanding? || e.AskLedger? || e.CommitVoid?
    ensures OrderlyInv(Step(s, e))
  {
    var t := Step(s, e);
    forall q | q in t.queue ensures RequestInv(t.window, q) {
      if q in s.queue { assert RequestInv(s.window, q); }
    }
  }

  lemma OrderlyStepKept(s: State, e: Event)
    requires Inv(s) && OrderlyInv(s) && Allowed(NO_FAULTS, s, e)
    ensures OrderlyInv(Step(s, e))
  {
    match e
    case Send(reply) => if s.job.Running? && s.job.at.AtSend? { OrderlySendKept(s, reply); }
    case Deliver(r) => OrderlyDeliverKept(s, r);
    case PressRetry(w, queued) => OrderlyRetryKept(s, w, queued);
    case Record(stored) => OrderlyRecordKept(s, stored);
    case InsertRow(w) => OrderlyStoreKept(s, e);
    case QueueFirst(w) => OrderlyStoreKept(s, e);
    case LateLanding(i) => OrderlyStoreKept(s, e);
    case AskLedger(d) => OrderlyStoreKept(s, e);
    case CommitVoid(a) => OrderlyStoreKept(s, e);
    case _ => OrderlyJobKept(s, e);
  }

  /**
   Looking before a retry is enough on its own: over every schedule without faults the books
   hold at most one entry for each row, even in a ledger that ignores the request id.
   */
  lemma {:induction false} LookingFirstGivesOneEntry(dedupes: bool, events: seq<Event>)
    requires AllowedRun(NO_FAULTS, dedupes, events)
    ensures AtMostOneEntry(Run(dedupes, events).sends) && OrderlyInv(Run(dedupes, events))
  {
    if events != [] {
      var before := events[..|events| - 1];
      forall k | 0 <= k < |before| ensures Allowed(NO_FAULTS, Run(dedupes, before[..k]), before[k]) {
        assert before[..k] == events[..k];
      }
      LookingFirstGivesOneEntry(dedupes, before);
      EveryRunKeeps(dedupes, before);
      OrderlyStepKept(Run(dedupes, before), events[|events| - 1]);
    }
  }
}
