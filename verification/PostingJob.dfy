/**
 The job itself, on the store and the books it changes: one run of `postWritebackJob` is the run of
 the state machine with the same answers.
 */
module PostingJob {
  import opened Posting

  class PostingStore {
    var rows: map<WritebackId, Row>
    var voided: map<nat, Asked>
  }

  /** QuickBooks as the job finds it. */
  class Books {
    const dedupes: bool
    var sends: seq<SendMade>
  }

  /** Everything the outside answers to one run. */
  datatype Answers = Answers(
    allowed: bool, failure: Option<NothingSentReason>, readable: bool, matches: bool, reply: Reply,
    readableBack: bool, matchesBack: bool, stored: bool)

  datatype Outcome = AlreadySucceeded | Ended(status: Status, reason: Reason) | Turned | NotRecorded

  function FromSend(s: State, a: Answers): State {
    Step(Step(Step(s, Send(a.reply)), ReadBack(a.readableBack, a.matchesBack)), Record(a.stored))
  }

  function FromLook(s: State, a: Answers): State {
    FromSend(Step(s, Look(a.readable, a.matches)), a)
  }

  /** The six awaits of one run, in order; those it returns before change nothing. */
  function RunJob(s: State, a: Answers): State {
    FromLook(Step(Step(s, Load(a.allowed)), Build(a.failure)), a)
  }

  /** A run that is over, or has only its record left to make, has no use for the awaits between. */
  lemma OnlyTheRecordIsLeft(s: State, a: Answers)
    requires s.job.Idle? || s.job.at.AtRecord?
    ensures FromSend(s, a) == FromLook(s, a) == Step(s, Record(a.stored))
    ensures s.job.Idle? ==> Step(s, Record(a.stored)) == s
  {
  }

  lemma NoLookOnSend(s: State, a: Answers)
    requires s.job.Running? && s.job.at.AtSend?
    ensures FromLook(s, a) == FromSend(s, a)
  {
  }

  function AfterBuild(s: State, a: Answers): State
    requires s.job.Running?
  {
    if a.failure.Some? then Fail(s, a.failure.value) else if s.job.retry then At(s, AtLook) else At(s, AtSend)
  }

  lemma FirstTwoAwaits(s: State, a: Answers)
    requires s.job.Running? && s.job.at.AtLoad?
    ensures var t := LoadStep(s, a.allowed);
            RunJob(s, a) == FromLook(if t.job.Idle? then t else AfterBuild(s, a), a)
  {
  }

  lemma LastAwaits(s: State, a: Answers)
    requires s.job.Running? && s.job.at.AtSend?
    ensures var t := SendStep(s, a.reply);
            FromSend(s, a) == RecordStep(
              if !t.job.at.AtReadBack? then t
              else if !a.readableBack then Fail(t, ReadbackFailed)
              else if !a.matchesBack then Fail(t, ReadbackMismatch)
              else At(t, AtRecord(Succeeded, SentAndVerified)), a.stored)
  {
    var t := SendStep(s, a.reply);
    assert Step(s, Send(a.reply)) == t;
    assert t.job.Running?;
  }

  function JobView(store: PostingStore, books: Books, job: Job): State
    reads store, books
  {
    State(books.dedupes, store.rows, books.sends, {}, {}, 0, job, {}, store.voided)
  }

  /** `recordWritebackAttempt` for a run that has made a send or none. */
  method RecordAttempt(store: PostingStore, books: Books, w: WritebackId, sent: bool, status: Status, reason: Reason, stored: bool)
    returns (outcome: Outcome)
    requires w in store.rows.Keys && (sent ==> |books.sends| > 0)
    modifies store`rows, books`sends
    ensures var t := RecordStep(old(JobView(store, books, Running(w, false, AtRecord(status, reason), sent))), stored);
            store.rows == t.rows && books.sends == t.sends
    ensures outcome == if stored then Ended(status, reason) else NotRecorded
  {
    if !stored { return NotRecorded; }
    store.rows := store.rows[w := Row(status, store.rows[w].attempts + [reason])];
    if sent {
      var last := |books.sends| - 1;
      books.sends := books.sends[last := books.sends[last].(recorded := true)];
    }
    return Ended(status, reason);
  }

  /** What a record leaves: the attempt, and the send it tells of marked, if the database takes it. */
  lemma RecordEndings(t: State, stored: bool)
    requires t.job.Running? && t.job.at.AtRecord? && t.job.w in t.rows.Keys && (t.job.sent ==> t.sends != [])
    ensures var (w, at, u, n) := (t.job.w, t.job.at, Step(t, Record(stored)), |t.sends| - 1);
            u.job.Idle? && u.rows == (if stored then t.rows[w := Row(at.status, t.rows[w].attempts + [at.reason])] else t.rows) &&
            u.sends == if stored && t.job.sent then t.sends[..n] + [SendMade(t.sends[n].w, t.sends[n].fate, true)] else t.sends
  {
  }

  lemma HoldsMeans(sends: seq<SendMade>, w: WritebackId)
    ensures Holds(sends, w) <==> exists i: nat | i < |sends| :: sends[i].w == w && sends[i].fate.Landed?
    ensures HoldsTwo(sends, w) <==>
            exists i: nat, k: nat | i < |sends| && k < |sends| ::
              i < k && sends[i].w == w && sends[i].fate.Landed? && sends[k].w == w && sends[k].fate.Landed?
  {
    assert forall i: nat :: LandedFor(sends, i, w) <==> i < |sends| && sends[i].w == w && sends[i].fate.Landed?;
  }

  /** Where a send leaves the run: its fate in the books, and what there is to record of it. */
  lemma SendLeads(s: State, reply: Reply)
    requires s.job.Running? && s.job.at.AtSend?
    ensures var w := s.job.w;
            var fate := match reply
              case ArrivesLate => InFlight
              case Refused => Gone
              case NeverArrived => Gone
              case _ =>
                if s.dedupes && exists i: nat | i < |s.sends| :: s.sends[i].w == w && s.sends[i].fate.Landed? then Merged
                else Landed;
            var at := match reply
              case Refused => AtRecord(Failed, SendFailed)
              case Answered => AtReadBack
              case _ => AtRecord(Failed, UnknownOutcome);
            SendStep(s, reply) == s.(sends := s.sends + [SendMade(w, fate, false)], job := s.job.(at := at, sent := true))
  {
    HoldsMeans(s.sends, s.job.w);
  }

  /** What reading back leads to. */
  lemma ReadBackLeads(t: State, a: Answers)
    requires t.job.Running?
    ensures Step(t, ReadBack(a.readableBack, a.matchesBack)) ==
            if !t.job.at.AtReadBack? then t
            else t.(job := t.job.(at :=
              if !a.readableBack then AtRecord(Failed, ReadbackFailed)
              else if !a.matchesBack then AtRecord(Failed, ReadbackMismatch) else AtRecord(Succeeded, SentAndVerified)))
  {
  }

  /** How a run that sends ends, by what is answered to the send and to the reading back. */
  lemma SendEndings(s: State, a: Answers)
    requires s.job.Running? && s.job.at.AtSend? && s.job.w in s.rows.Keys
    ensures var w := s.job.w;
            var (status, reason) := match a.reply
              case Refused => (Failed, SendFailed)
              case Answered =>
                if !a.readableBack then (Failed, ReadbackFailed)
                else if !a.matchesBack then (Failed, ReadbackMismatch) else (Succeeded, SentAndVerified)
              case _ => (Failed, UnknownOutcome);
            var (t, n) := (FromSend(s, a), |s.sends|);
            t.rows == (if a.stored then s.rows[w := Row(status, s.rows[w].attempts + [reason])] else s.rows) &&
            |t.sends| == n + 1 && t.sends[..n] == s.sends && t.sends[n].w == w && t.sends[n].recorded == a.stored &&
            t.sends[n].fate == SendStep(s, a.reply).sends[n].fate
  {
    SendLeads(s, a.reply);
    var t := SendStep(s, a.reply);
    ReadBackLeads(t, a);
    RecordEndings(Step(t, ReadBack(a.readableBack, a.matchesBack)), a.stored);
  }

  /**
   What a look leads to, by what the books show for the reference: unreadable, more than one entry, one
   that matches or does not; with none there it goes on to the send.
   */
  lemma LookLeads(s: State, readable: bool, matches: bool)
    requires s.job.Running? && s.job.at.AtLook?
    ensures var w := s.job.w;
            var one := exists i: nat | i < |s.sends| :: s.sends[i].w == w && s.sends[i].fate.Landed?;
            var two := exists i: nat, k: nat | i < |s.sends| && k < |s.sends| ::
              i < k && s.sends[i].w == w && s.sends[i].fate.Landed? && s.sends[k].w == w && s.sends[k].fate.Landed?;
            LookStep(s, readable, matches) == s.(job := s.job.(at :=
              if !readable then AtRecord(Failed, ReadbackFailed)
              else if two then AtRecord(Failed, AmbiguousReference)
              else if one then AtRecord(if matches then Succeeded else Failed, if matches then FoundOnRetry else ReadbackMismatch)
              else AtSend))
  {
    HoldsMeans(s.sends, s.job.w);
  }

  /** How a retry that sends nothing ends. */
  lemma LookEndings(s: State, a: Answers)
    requires s.job.Running? && s.job.at.AtLook? && !s.job.sent && s.job.w in s.rows.Keys
    ensures var (w, at) := (s.job.w, LookStep(s, a.readable, a.matches).job.at);
            if at.AtSend? then FromLook(s, a) == FromSend(At(s, AtSend), a)
            else
              at.AtRecord? && FromLook(s, a).job.Idle? && FromLook(s, a).sends == s.sends &&
              FromLook(s, a).rows == if a.stored then s.rows[w := Row(at.status, s.rows[w].attempts + [at.reason])] else s.rows
  {
    LookLeads(s, a.readable, a.matches);
    var t := LookStep(s, a.readable, a.matches);
    assert FromLook(s, a) == FromSend(t, a);
    if t.job.at.AtRecord? {
      OnlyTheRecordIsLeft(t, a);
      RecordEndings(t, a.stored);
    }
  }

  lemma WhereALookLeads(s: State, a: Answers)
    requires s.job.Running? && s.job.at.AtLook?
    ensures var t := LookStep(s, a.readable, a.matches);
            (t.job.at.AtSend? <==> a.readable && !Holds(s.sends, s.job.w)) &&
            (t.job.at.AtRecord? && t.job.at.status.Succeeded? <==>
              a.readable && Holds(s.sends, s.job.w) && !HoldsTwo(s.sends, s.job.w) && a.matches)
  {
  }

  /** The runs that come to build a posting: those allowed, of a pending row not voided, a Payment's after its entry. */
  lemma LoadLeads(s: State, allowed: bool)
    requires s.job.Running? && s.job.at.AtLoad?
    ensures var w := s.job.w;
            var entry := WritebackId(w.decision, JournalEntry);
            LoadStep(s, allowed) == s.(job :=
              if allowed && w in s.rows.Keys && s.rows[w].status.Pending? && w.decision !in s.voided &&
                 (w.kind.PaymentApplication? ==> entry in s.rows.Keys && s.rows[entry].status.Succeeded?)
              then s.job.(at := AtBuild) else Idle)
  {
  }

  /** A posting that fails to build is recorded with its reason; only a retry looks before it sends. */
  lemma BuildEndings(s: State, a: Answers)
    requires s.job.Running? && !s.job.sent && s.job.w in s.rows.Keys
    ensures var (w, t) := (s.job.w, FromLook(AfterBuild(s, a), a));
            if a.failure.Some? then
              t.sends == s.sends &&
              t.rows == if a.stored then s.rows[w := Row(Failed, s.rows[w].attempts + [a.failure.value])] else s.rows
            else t == if s.job.retry then FromLook(At(s, AtLook), a) else FromSend(At(s, AtSend), a)
  {
    if a.failure.Some? {
      OnlyTheRecordIsLeft(Fail(s, a.failure.value), a);
      RecordEndings(Fail(s, a.failure.value), a.stored);
    } else if !s.job.retry {
      NoLookOnSend(At(s, AtSend), a);
    }
  }

  /** The entries the ledger returns for a reference. */
  function Found(sends: seq<SendMade>, w: WritebackId): (ids: seq<nat>)
    ensures forall k :: 0 <= k < |ids| ==> LandedFor(sends, ids[k], w)
    ensures |ids| > 0 <==> Holds(sends, w)
    ensures |ids| > 1 <==> HoldsTwo(sends, w)
  {
    if sends == [] then []
    else
      var n := |sends| - 1;
      var before := Found(sends[..n], w);
      FoundSplit(sends, w);
      if sends[n].w == w && sends[n].fate.Landed? then before + [n] else before
  }

  lemma FoundSplit(sends: seq<SendMade>, w: WritebackId)
    requires sends != []
    ensures var n := |sends| - 1;
            (Holds(sends, w) <==> Holds(sends[..n], w) || LandedFor(sends, n, w)) &&
            (HoldsTwo(sends, w) <==> HoldsTwo(sends[..n], w) || (Holds(sends[..n], w) && LandedFor(sends, n, w)))
  {
    var n := |sends| - 1;
    var before := sends[..n];
    assert forall i: nat | i < n :: LandedFor(before, i, w) <==> LandedFor(sends, i, w);
    if Holds(before, w) {
      var i: nat :| i < |before| && LandedFor(before, i, w);
      assert LandedFor(sends, i, w);
    }
    if HoldsTwo(before, w) {
      var i: nat, j: nat :| i < |before| && j < |before| && i < j && LandedFor(before, i, w) && LandedFor(before, j, w);
      assert LandedFor(sends, i, w) && LandedFor(sends, j, w);
    }
  }

  /**
   `postWritebackJob`: one run against the store and the books, in the source's order, is the run
   of the state machine with the same answers; and what it reports is what it recorded.
   */
  method PostWriteback(store: PostingStore, books: Books, w: WritebackId, retry: bool, a: Answers)
    returns (outcome: Outcome)
    modifies store`rows, books`sends
    ensures var t := RunJob(old(JobView(store, books, Running(w, retry, AtLoad, false))), a);
            store.rows == t.rows && books.sends == t.sends && t.job.Idle?
    ensures outcome.Ended? ==>
              w in old(store.rows).Keys &&
              store.rows == old(store.rows)[w := Row(outcome.status, old(store.rows)[w].attempts + [outcome.reason])]
    ensures !outcome.Ended? ==> store.rows == old(store.rows)
    ensures outcome.Turned? || outcome.AlreadySucceeded? ==> books.sends == old(books.sends)
    ensures outcome.AlreadySucceeded? <==>
              a.allowed && w in old(store.rows).Keys && old(store.rows)[w].status.Succeeded?
    ensures outcome.Ended? || outcome.NotRecorded? <==>
              a.allowed && w in old(store.rows).Keys && old(store.rows)[w].status.Pending? && w.decision !in store.voided &&
              (w.kind.PaymentApplication? ==>
                var entry := WritebackId(w.decision, JournalEntry);
                entry in old(store.rows).Keys && old(store.rows)[entry].status.Succeeded?)
    ensures outcome.Ended? || outcome.NotRecorded? ==>
              (outcome.Ended? <==> a.stored) &&
              (outcome.Ended? && outcome.status.Succeeded? <==>
                a.stored && a.failure.None? && Verified(old(books.sends), w, retry, a))
  {
    ghost var s := JobView(store, books, Running(w, retry, AtLoad, false));
    FirstTwoAwaits(s, a);
    OnlyTheRecordIsLeft(s.(job := Idle), a);
    var entry := WritebackId(w.decision, JournalEntry);
    if !a.allowed || w !in store.rows.Keys { return Turned; }
    if store.rows[w].status.Succeeded? { return AlreadySucceeded; }
    if w.decision in store.voided || !store.rows[w].status.Pending? { return Turned; }
    if w.kind.PaymentApplication? && !(entry in store.rows.Keys && store.rows[entry].status.Succeeded?) {
      return Turned;
    }
    outcome := BuildThenPost(store, books, w, retry, a);
  }

  /** One matching entry found on a retry; or, with none to find, one sent, read back and matching. */
  predicate Verified(sends: seq<SendMade>, w: WritebackId, retry: bool, a: Answers) {
    if retry && !(a.readable && !Holds(sends, w)) then a.readable && !HoldsTwo(sends, w) && a.matches
    else a.reply.Answered? && a.readableBack && a.matchesBack
  }

  /** Past the row's checks: the posting is built, or its failure recorded as having sent nothing. */
  method BuildThenPost(store: PostingStore, books: Books, w: WritebackId, retry: bool, a: Answers)
    returns (outcome: Outcome)
    requires w in store.rows.Keys
    modifies store`rows, books`sends
    ensures var s := old(JobView(store, books, Running(w, retry, AtLoad, false)));
            var t := FromLook(AfterBuild(s, a), a);
            store.rows == t.rows && books.sends == t.sends && t.job.Idle?
    ensures outcome.Ended? ==>
              store.rows == old(store.rows)[w := Row(outcome.status, old(store.rows)[w].attempts + [outcome.reason])]
    ensures !outcome.Ended? ==> outcome.NotRecorded? && store.rows == old(store.rows)
    ensures (outcome.Ended? <==> a.stored) &&
            (outcome.Ended? && outcome.status.Succeeded? <==>
              a.stored && a.failure.None? && Verified(old(books.sends), w, retry, a))
  {
    ghost var s := JobView(store, books, Running(w, retry, AtLoad, false));
    if a.failure.Some? {
      OnlyTheRecordIsLeft(Fail(s, a.failure.value), a);
      outcome := RecordAttempt(store, books, w, false, Failed, a.failure.value, a.stored);
    } else if retry {
      outcome := LookThenPost(store, books, w, a);
    } else {
      NoLookOnSend(At(s, AtSend), a);
      outcome := SendAndVerify(store, books, w, retry, a);
    }
  }

  /** A person's retry: the books are asked for the reference, and only an empty answer goes on to the send. */
  method LookThenPost(store: PostingStore, books: Books, w: WritebackId, a: Answers)
    returns (outcome: Outcome)
    requires w in store.rows.Keys
    modifies store`rows, books`sends
    ensures var t := FromLook(old(JobView(store, books, Running(w, true, AtLook, false))), a);
            store.rows == t.rows && books.sends == t.sends && t.job.Idle?
    ensures outcome.Ended? ==>
              store.rows == old(store.rows)[w := Row(outcome.status, old(store.rows)[w].attempts + [outcome.reason])]
    ensures !outcome.Ended? ==> outcome.NotRecorded? && store.rows == old(store.rows)
    ensures (outcome.Ended? <==> a.stored) &&
            (outcome.Ended? && outcome.status.Succeeded? <==> a.stored && Verified(old(books.sends), w, true, a))
    ensures a.readable && Holds(old(books.sends), w) && !HoldsTwo(old(books.sends), w) && a.stored ==>
              outcome == if a.matches then Ended(Succeeded, FoundOnRetry) else Ended(Failed, ReadbackMismatch)
  {
    ghost var s := JobView(store, books, Running(w, true, AtLook, false));
    LookEndings(s, a);
    WhereALookLeads(s, a);
    var existing := Found(books.sends, w);
    if a.readable && |existing| == 0 {
      outcome := SendAndVerify(store, books, w, true, a);
      return;
    }
    if !a.readable {
      outcome := RecordAttempt(store, books, w, false, Failed, ReadbackFailed, a.stored);
    } else if |existing| > 1 {
      outcome := RecordAttempt(store, books, w, false, Failed, AmbiguousReference, a.stored);
    } else if a.matches {
      outcome := RecordAttempt(store, books, w, false, Succeeded, FoundOnRetry, a.stored);
    } else {
      outcome := RecordAttempt(store, books, w, false, Failed, ReadbackMismatch, a.stored);
    }
  }

  /** The send, the read-back of what it created, and the record of how it ended. */
  method SendAndVerify(store: PostingStore, books: Books, w: WritebackId, retry: bool, a: Answers)
    returns (outcome: Outcome)
    requires w in store.rows.Keys
    modifies store`rows, books`sends
    ensures var t := FromSend(old(JobView(store, books, Running(w, retry, AtSend, false))), a);
            store.rows == t.rows && books.sends == t.sends && t.job.Idle?
    ensures outcome.Ended? ==>
              store.rows == old(store.rows)[w := Row(outcome.status, old(store.rows)[w].attempts + [outcome.reason])]
    ensures !outcome.Ended? ==> outcome.NotRecorded? && store.rows == old(store.rows)
    ensures (outcome.Ended? <==> a.stored) &&
            (outcome.Ended? && outcome.status.Succeeded? <==> a.stored && a.reply.Answered? && a.readableBack && a.matchesBack)
  {
    LastAwaits(JobView(store, books, Running(w, retry, AtSend, false)), a);
    var landing := if books.dedupes && |Found(books.sends, w)| > 0 then Merged else Landed;
    var fate := match a.reply
      case Answered => landing
      case ReplyLost => landing
      case Refused => Gone
      case NeverArrived => Gone
      case ArrivesLate => InFlight;
    books.sends := books.sends + [SendMade(w, fate, false)];
    match a.reply
    case Refused => outcome := RecordAttempt(store, books, w, true, Failed, SendFailed, a.stored);
    case Answered =>
      if !a.readableBack {
        outcome := RecordAttempt(store, books, w, true, Failed, ReadbackFailed, a.stored);
      } else if !a.matchesBack {
        outcome := RecordAttempt(store, books, w, true, Failed, ReadbackMismatch, a.stored);
      } else {
        outcome := RecordAttempt(store, books, w, true, Succeeded, SentAndVerified, a.stored);
      }
    case _ => outcome := RecordAttempt(store, books, w, true, Failed, UnknownOutcome, a.stored);
  }
}
