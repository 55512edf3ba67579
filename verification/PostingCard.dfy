/**
 A card the store could check: a settlement is offered for voiding only when every run started on one
 of its rows has left an attempt.
 */
module PostingCard {
  import opened Posting
  import opened PostingFaults
  import opened PostingVoids
  import PostingGuard

  /** This event starts a run on this row. */
  predicate StartsRun(s: State, e: Event, w: WritebackId) {
    e.Deliver? && e.request.w == w && s.job.Idle? && e.request in s.queue && e.request.key !in s.window
  }

  /** The runs started on a row: a count its job could keep as it keeps its attempts. */
  function Starts(dedupes: bool, events: seq<Event>, w: WritebackId): nat {
    if events == [] then 0
    else
      var before := events[..|events| - 1];
      Starts(dedupes, before, w) + if StartsRun(Run(dedupes, before), events[|events| - 1], w) then 1 else 0
  }

  /** A row's sends that no attempt records. */
  function Unrecorded(sends: seq<SendMade>, w: WritebackId): nat {
    if sends == [] then 0
    else
      var last := sends[|sends| - 1];
      Unrecorded(sends[..|sends| - 1], w) + if last.w == w && !last.recorded then 1 else 0
  }

  lemma UnrecordedSnoc(sends: seq<SendMade>, made: SendMade, w: WritebackId)
    ensures Unrecorded(sends + [made], w) == Unrecorded(sends, w) + if made.w == w && !made.recorded then 1 else 0
  {
    assert (sends + [made])[..|sends|] == sends;
  }

  lemma {:induction false} UnrecordedAlike(sends: seq<SendMade>, others: seq<SendMade>, w: WritebackId)
    requires |sends| == |others|
    requires forall i: nat | i < |sends| :: sends[i].w == others[i].w && sends[i].recorded == others[i].recorded
    ensures Unrecorded(sends, w) == Unrecorded(others, w)
  {
    if sends != [] { UnrecordedAlike(sends[..|sends| - 1], others[..|others| - 1], w); }
  }

  lemma {:induction false} NoneUnrecorded(sends: seq<SendMade>, w: WritebackId)
    requires Unrecorded(sends, w) == 0
    ensures forall i: nat | i < |sends| :: sends[i].w == w ==> sends[i].recorded
  {
    if sends != [] { NoneUnrecorded(sends[..|sends| - 1], w); }
  }

  /** The run in progress on a row, before it has sent. */
  function Unsent(job: Job, w: WritebackId): nat {
    if job.Running? && job.w == w && !job.sent then 1 else 0
  }

  function Attempts(rows: map<WritebackId, Row>, w: WritebackId): nat {
    if w in rows then |rows[w].attempts| else 0
  }

  /** What a row's started runs have left: an attempt, a send no attempt records, or nothing yet. */
  function Left(s: State, w: WritebackId): nat {
    Attempts(s.rows, w) + Unrecorded(s.sends, w) + Unsent(s.job, w)
  }

  lemma SendLeaves(s: State, reply: Reply, w: WritebackId)
    requires JobInv(s) && s.job.Running? && s.job.at.AtSend?
    ensures Left(SendStep(s, reply), w) == Left(s, w)
  {
    var t := SendStep(s, reply);
    UnrecordedSnoc(s.sends, t.sends[|s.sends|], w);
  }

  lemma RecordLeaves(s: State, stored: bool, w: WritebackId)
    requires JobInv(s) && s.job.Running? && s.job.at.AtRecord?
    ensures Left(RecordStep(s, stored), w) <= Left(s, w)
  {
    var t := RecordStep(s, stored);
    if stored && s.job.sent {
      var n := |s.sends| - 1;
      UnrecordedSnoc(s.sends[..n], s.sends[n], w);
      UnrecordedSnoc(s.sends[..n], t.sends[n], w);
      assert s.sends == s.sends[..n] + [s.sends[n]] && t.sends == s.sends[..n] + [t.sends[n]];
    }
  }

  lemma LateLandingLeaves(s: State, i: nat, w: WritebackId)
    ensures Left(Step(s, LateLanding(i)), w) == Left(s, w)
  {
    UnrecordedAlike(s.sends, Step(s, LateLanding(i)).sends, w);
  }

  lemma OtherStepLeaves(s: State, e: Event, w: WritebackId)
    requires !e.Send? && !e.Record? && !e.LateLanding?
    ensures Left(Step(s, e), w) <= Left(s, w) + if StartsRun(s, e, w) then 1 else 0
  {
  }

  lemma StepLeaves(s: State, e: Event, w: WritebackId)
    requires Inv(s)
    ensures Left(Step(s, e), w) <= Left(s, w) + if StartsRun(s, e, w) then 1 else 0
  {
    match e
    case Send(reply) => if s.job.Running? && s.job.at.AtSend? { SendLeaves(s, reply, w); }
    case Record(stored) => if s.job.Running? && s.job.at.AtRecord? { RecordLeaves(s, stored, w); }
    case LateLanding(i) => LateLandingLeaves(s, i, w);
    case _ => OtherStepLeaves(s, e, w);
  }

  /** Over every run what a row's runs have left is no more than the runs started on it. */
  lemma {:induction false} EveryRunLeaves(dedupes: bool, events: seq<Event>, w: WritebackId)
    ensures Left(Run(dedupes, events), w) <= Starts(dedupes, events, w)
  {
    if events != [] {
      var before := events[..|events| - 1];
      EveryRunLeaves(dedupes, before, w);
      EveryRunKeeps(dedupes, before);
      StepLeaves(Run(dedupes, before), events[|events| - 1], w);
    }
  }

  /** Every run started on the row has left an attempt. */
  predicate AllRecorded(dedupes: bool, events: seq<Event>, w: WritebackId) {
    Attempts(Run(dedupes, events).rows, w) == Starts(dedupes, events, w)
  }

  /**
   A settlement the card calls voidable, with an attempt for every run started on this row of it, has
   no entry of the row in the books and no run of it in progress, whatever faults there were.
   */
  lemma CheckedCardHoldsNothing(dedupes: bool, events: seq<Event>, w: WritebackId)
    requires CardVoidable(Run(dedupes, events), w.decision) && AllRecorded(dedupes, events, w)
    ensures var s := Run(dedupes, events); !Holds(s.sends, w) && (s.job.Running? ==> s.job.w != w)
  {
    var s := Run(dedupes, events);
    EveryRunLeaves(dedupes, events, w);
    EveryRunKeeps(dedupes, events);
    NoneUnrecorded(s.sends, w);
    VoidableHoldsNothingUnseen(s, w);
  }

  /** What the card calls voidable holds nothing that an attempt records. */
  lemma VoidableHoldsNothingUnseen(s: State, w: WritebackId)
    requires Inv(s) && CardVoidable(s, w.decision)
    requires forall i: nat | i < |s.sends| :: s.sends[i].w == w ==> s.sends[i].recorded
    ensures !Holds(s.sends, w)
  {
    forall i: nat | i < |s.sends| ensures !LandedFor(s.sends, i, w) {
      assert SendInv(s.rows, s.sends[i]);
    }
  }

  /** The card offers the settlement of this row. */
  ghost predicate Offers(checked: bool, events: seq<Event>, w: WritebackId) {
    CardVoidable(Run(false, events), w.decision) && Run(false, events).job.Idle? && (checked ==> AllRecorded(false, events, w))
  }

  lemma OfferedHoldsNothing(checked: bool, events: seq<Event>, w: WritebackId)
    requires Offers(checked, events, w) && (checked || NothingLost(false, events))
    ensures !Holds(Run(false, events).sends, w)
  {
    if checked { CheckedCardHoldsNothing(false, events, w); } else { CardVoidableExactly(false, events, w); }
  }

  /** Unchecked, with runs that may be lost, it is offered with its entry in the books under any faults. */
  lemma OfferedWithAnEntry(f: Faults)
    ensures exists events :: AllowedRun(f, false, events) && Offers(false, events, ENTRY) && Holds(Run(false, events).sends, ENTRY)
  {
    CardVoidableWithAnEntry();
    var s :| Reached(NO_FAULTS, false, s) && s.job.Idle? && CardVoidable(s, 0) && Holds(s.sends, ENTRY);
    var events :| AllowedRun(NO_FAULTS, false, events) && Run(false, events) == s;
    PostingGuard.MoreFaultsAllowMore(f, events);
    assert ENTRY.decision == 0;
  }

  /**
   Over every run, with whatever faults, what the card offers to void while no job runs has no entry in
   the books exactly when it is offered only with an attempt for every started run, or no run may be
   lost between its send and the record of it.
   */
  lemma CheckedCardExactly(f: Faults, mayLose: bool, checked: bool)
    ensures (forall events, w: WritebackId ::
              AllowedRun(f, false, events) && (mayLose || NothingLost(false, events)) && Offers(checked, events, w) ==>
              !Holds(Run(false, events).sends, w)) <==> checked || !mayLose
  {
    if checked || !mayLose {
      forall events, w: WritebackId | (mayLose || NothingLost(false, events)) && Offers(checked, events, w)
        ensures !Holds(Run(false, events).sends, w)
      {
        OfferedHoldsNothing(checked, events, w);
      }
    } else {
      OfferedWithAnEntry(f);
    }
  }
}
