/**
 What a posted row stands on: in every run, a readable answer of the ledger that matched its entry, got
 by the very run that recorded it.
 */
module PostingVerified {
  import opened Posting

  /** The books hold an entry of the row when a run on it is shown one that matches: by reference on a retry, or read back. */
  predicate Confirms(s: State, e: Event, w: WritebackId) {
    s.job.Running? && s.job.w == w &&
    ((e.Look? && e.readable && e.matches && s.job.retry && s.job.at.AtLook? && !HoldsTwo(s.sends, w)) ||
     (e.ReadBack? && e.readable && e.matches && s.job.at.AtReadBack?)) &&
    exists i: nat | i < |s.sends| :: s.sends[i].w == w && s.sends[i].fate.Landed?
  }

  /** Confirmed at step `j`, and from there on about to record it. */
  predicate StandsSince(dedupes: bool, events: seq<Event>, j: nat, job: Job) {
    j < |events| && job.Running? && Confirms(Run(dedupes, events[..j]), events[j], job.w) &&
    forall m: nat | m <= |events| :: j < m ==> Run(dedupes, events[..m]).job == job
  }

  /** Confirmed at step `j`, and recorded by that run at step `k`. */
  predicate RecordedAs(dedupes: bool, events: seq<Event>, j: nat, k: nat, w: WritebackId) {
    j < k < |events| && events[k] == Record(true) && Confirms(Run(dedupes, events[..j]), events[j], w) &&
    forall m: nat | m <= k :: j < m ==> ReadyToRecord(Run(dedupes, events[..m]).job, w)
  }

  predicate ReadyToRecord(job: Job, w: WritebackId) {
    job.Running? && job.w == w && job.at.AtRecord? && job.at.status.Succeeded?
  }

  lemma LookingIsRetrying(s: State, e: Event)
    requires s.job.Running? && s.job.at.AtLook? ==> s.job.retry
    ensures var t := Step(s, e); t.job.Running? && t.job.at.AtLook? ==> t.job.retry
  {
  }

  lemma {:induction false} EveryLookIsARetrys(dedupes: bool, events: seq<Event>)
    ensures var s := Run(dedupes, events); s.job.Running? && s.job.at.AtLook? ==> s.job.retry
  {
    if events != [] {
      EveryLookIsARetrys(dedupes, events[..|events| - 1]);
      LookingIsRetrying(Run(dedupes, events[..|events| - 1]), events[|events| - 1]);
    }
  }

  /** A run comes to record a success only from a confirmation. */
  lemma OnlyConfirmed(s: State, e: Event, w: WritebackId)
    requires JobInv(s) && (s.job.Running? && s.job.at.AtLook? ==> s.job.retry)
    requires ReadyToRecord(Step(s, e).job, w)
    ensures s.job == Step(s, e).job || Confirms(s, e, w)
  {
    if e.Look? && s.job.Running? && s.job.at.AtLook? {
      var i: nat :| i < |s.sends| && LandedFor(s.sends, i, w);
    } else if e.ReadBack? && s.job.Running? && s.job.at.AtReadBack? {
      var i: nat :| i < |s.sends| && LandedFor(s.sends, i, w);
    }
  }

  lemma {:induction false} ReadyWasConfirmed(dedupes: bool, events: seq<Event>, w: WritebackId)
    requires ReadyToRecord(Run(dedupes, events).job, w)
    ensures exists j: nat :: StandsSince(dedupes, events, j, Run(dedupes, events).job)
  {
    var before := events[..|events| - 1];
    var (s, e, job) := (Run(dedupes, before), events[|events| - 1], Run(dedupes, events).job);
    EveryRunKeeps(dedupes, before);
    EveryLookIsARetrys(dedupes, before);
    OnlyConfirmed(s, e, w);
    if Confirms(s, e, w) {
      assert events[..|events|] == events;
      assert StandsSince(dedupes, events, |before|, job);
    } else {
      ReadyWasConfirmed(dedupes, before, w);
      var j: nat :| StandsSince(dedupes, before, j, job);
      StillStands(dedupes, events, j, job);
    }
  }

  lemma StillStands(dedupes: bool, events: seq<Event>, j: nat, job: Job)
    requires events != [] && StandsSince(dedupes, events[..|events| - 1], j, job) && Run(dedupes, events).job == job
    ensures StandsSince(dedupes, events, j, job)
  {
    var before := events[..|events| - 1];
    assert before[..j] == events[..j];
    forall m: nat | m <= |events| && j < m ensures Run(dedupes, events[..m]).job == job {
      if m <= |before| { assert before[..m] == events[..m]; } else { assert events[..m] == events; }
    }
  }

  /** A row becomes one that succeeded only when a run on it records so. */
  lemma OnlyRecordsSucceed(s: State, e: Event, w: WritebackId)
    requires w in Step(s, e).rows.Keys && Step(s, e).rows[w].status.Succeeded?
    ensures (w in s.rows.Keys && s.rows[w].status.Succeeded?) || (e == Record(true) && ReadyToRecord(s.job, w))
  {
  }

  /**
   Over every run, a row that succeeded was recorded so by a run that, as its last answer from the
   ledger, was shown one entry of the row in the books, readable and matching.
   */
  lemma {:induction false} SucceededWasVerified(dedupes: bool, events: seq<Event>, w: WritebackId)
    requires w in Run(dedupes, events).rows.Keys && Run(dedupes, events).rows[w].status.Succeeded?
    ensures exists j: nat, k: nat :: RecordedAs(dedupes, events, j, k, w)
  {
    var before := events[..|events| - 1];
    var (s, e) := (Run(dedupes, before), events[|events| - 1]);
    OnlyRecordsSucceed(s, e, w);
    if w in s.rows.Keys && s.rows[w].status.Succeeded? {
      SucceededWasVerified(dedupes, before, w);
      var j: nat, k: nat :| RecordedAs(dedupes, before, j, k, w);
      RecordedBefore(dedupes, events, j, k, w);
    } else {
      ReadyWasConfirmed(dedupes, before, w);
      var j: nat :| StandsSince(dedupes, before, j, s.job);
      RecordedNow(dedupes, events, j, w);
    }
  }

  lemma RecordedBefore(dedupes: bool, events: seq<Event>, j: nat, k: nat, w: WritebackId)
    requires events != [] && RecordedAs(dedupes, events[..|events| - 1], j, k, w)
    ensures RecordedAs(dedupes, events, j, k, w)
  {
    var before := events[..|events| - 1];
    forall m: nat | m <= k ensures before[..m] == events[..m] {}
  }

  lemma RecordedNow(dedupes: bool, events: seq<Event>, j: nat, w: WritebackId)
    requires events != [] && events[|events| - 1] == Record(true)
    requires var before := events[..|events| - 1];
             ReadyToRecord(Run(dedupes, before).job, w) && StandsSince(dedupes, before, j, Run(dedupes, before).job)
    ensures RecordedAs(dedupes, events, j, |events| - 1, w)
  {
    var before := events[..|events| - 1];
    forall m: nat | m <= |before| ensures before[..m] == events[..m] {}
  }
}
