/**
 An upload to a case that the runtime's window swallows: when the run it was swallowed for files the
 document on the case, and when nobody does.
 */
module SwallowedUploads {
  import opened ReadAttach
  import PaidReads

  /** This event files nothing on the case but through its uploads, and leaves their key in the window. */
  predicate OnlyUploads(c: nat, e: Event) {
    match e
    case PersonAttaches(x) => x != c
    case Release(x) => x != c
    case ReDrive(target, _) => target != Some(c)
    case Expire(k) => k != ForPair(c)
    case Open(_, x, _) => x != c
    case OpenLines(_, joined, _) => c !in joined
    case _ => true
  }

  predicate OnlyUploadsRun(c: nat, events: seq<Event>) {
    forall k :: 0 <= k < |events| ==> OnlyUploads(c, events[k])
  }

  predicate AsksFor(r: Delivery, c: nat) {
    r.request.target == Some(c)
  }

  predicate Served(runs: seq<Delivery>, c: nat) {
    exists i: nat | i < |runs| :: AsksFor(runs[i], c) && runs[i].phase.Done?
  }

  /** The case's one run is on its key in the window, and the case has the document when that run ended well. */
  predicate ServedInv(s: State, c: nat) {
    (forall i: nat | i < |s.runs| :: AsksFor(s.runs[i], c) ==> ForPair(c) in s.window) &&
    (forall i: nat, j: nat | i < |s.runs| && j < |s.runs| :: AsksFor(s.runs[i], c) && AsksFor(s.runs[j], c) ==> i == j) &&
    (c in s.facts.links ==> Served(s.runs, c))
  }

  /** A step of one run files only on the case it names, ending well. */
  lemma ActFiles(f: Facts, r: Delivery, e: Event, c: nat)
    requires InTurn(r, e) && OnlyUploads(c, e) && c !in f.links && c in Act(f, r, e).facts.links
    ensures AsksFor(r, c) && Act(f, r, e).phase.Done?
  {
  }

  lemma ClaimStepServes(s: State, e: Event, c: nat)
    requires ServedInv(s, c) && ClaimEvent(e) && OnlyUploads(c, e)
    ensures ServedInv(ClaimStep(s, e), c)
  {
    var t := ClaimStep(s, e);
    if e.i < |s.runs| && InTurn(s.runs[e.i], e) {
      forall i: nat | i < |t.runs| ensures AsksFor(t.runs[i], c) <==> AsksFor(s.runs[i], c) {}
      if c in t.facts.links {
        if c in s.facts.links {
          ServedStays(s.runs, t.runs, c);
        } else {
          ActFiles(s.facts, s.runs[e.i], e, c);
          assert AsksFor(t.runs[e.i], c) && t.runs[e.i].phase.Done?;
        }
      }
    }
  }

  lemma ServedStays(runs: seq<Delivery>, later: seq<Delivery>, c: nat)
    requires Served(runs, c) && |runs| <= |later|
    requires forall i: nat | i < |runs| :: runs[i].phase.Done? ==> later[i] == runs[i]
    ensures Served(later, c)
  {
    var i: nat :| i < |runs| && AsksFor(runs[i], c) && runs[i].phase.Done?;
    assert AsksFor(later[i], c) && later[i].phase.Done?;
  }

  lemma QueueStepServes(s: State, e: Event, c: nat)
    requires ServedInv(s, c) && !ClaimEvent(e) && OnlyUploads(c, e)
    ensures ServedInv(Step(s, e), c)
  {
    var t := Step(s, e);
    forall i: nat | i < |s.runs| ensures t.runs[i].request == s.runs[i].request && (s.runs[i].phase.Done? ==> t.runs[i] == s.runs[i]) {}
    if c in t.facts.links { ServedStays(s.runs, t.runs, c); }
  }

  lemma {:induction false} EveryRunServes(arrivedHeld: bool, events: seq<Event>, c: nat)
    requires OnlyUploadsRun(c, events)
    ensures ServedInv(Run(arrivedHeld, events), c)
  {
    if events != [] {
      var before := events[..|events| - 1];
      var e := events[|events| - 1];
      assert OnlyUploads(c, e);
      EveryRunServes(arrivedHeld, before, c);
      if ClaimEvent(e) { ClaimStepServes(Run(arrivedHeld, before), e, c); } else { QueueStepServes(Run(arrivedHeld, before), e, c); }
    }
  }

  /**
   Where only its uploads ask for a case and their key stays in the window, a swallowed upload to it
   is served exactly when the one run on that key ends successfully: the document is on the case
   then and not otherwise.
   */
  lemma SwallowedAttachmentServedExactly(arrivedHeld: bool, events: seq<Event>, c: nat, mayOpen: bool)
    requires OnlyUploadsRun(c, events)
    requires Run(arrivedHeld, events + [Upload(Some(c), mayOpen)]).runs == Run(arrivedHeld, events).runs
    ensures var s := Run(arrivedHeld, events);
            exists i: nat | i < |s.runs| ::
              AsksFor(s.runs[i], c) && (forall j: nat | j < |s.runs| :: AsksFor(s.runs[j], c) ==> j == i) &&
              (c in s.facts.links <==> s.runs[i].phase.Done?)
  {
    SwallowedUploadHasItsRun(arrivedHeld, events, Some(c), mayOpen);
    EveryRunKeeps(arrivedHeld, events);
    EveryRunServes(arrivedHeld, events, c);
    var s := Run(arrivedHeld, events);
    var i: nat :| i < |s.runs| && s.runs[i].request.target == Some(c);
    assert RunInv(s.facts.links, s.runs[i]) && AsksFor(s.runs[i], c);
  }

  /** So once that run has failed, no upload to the case in the window is served, however many there are. */
  lemma SwallowedAfterFailureIsNeverServed(arrivedHeld: bool, events: seq<Event>, more: seq<Event>, c: nat, i: nat)
    requires OnlyUploadsRun(c, events + more)
    requires i < |Run(arrivedHeld, events).runs| && AsksFor(Run(arrivedHeld, events).runs[i], c)
    requires Run(arrivedHeld, events).runs[i].phase.Failed?
    ensures c !in Run(arrivedHeld, events + more).facts.links
  {
    EndedStaysEnded(arrivedHeld, events, more, i);
    EveryRunServes(arrivedHeld, events + more, c);
    var s := Run(arrivedHeld, events + more);
    assert AsksFor(s.runs[i], c);
    forall j: nat | j < |s.runs| && AsksFor(s.runs[j], c) ensures !s.runs[j].phase.Done? { assert i == j; }
  }

  /** Such a run: the first upload's member may no longer write, and the second upload is swallowed. */
  lemma SwallowedAndUnserved()
    ensures var s := Run(false, [Upload(Some(5), true), Begin(0, Some(InvalidJobPayload)), Upload(Some(5), true)]);
            |s.runs| == 1 && s.runs[0].phase == Failed(InvalidJobPayload) && s.facts.links == {}
  {
    var r := Delivery(Request(Some(5), true, ForPair(5)), 0, 0, Waiting);
    var s1 := Init(false).(window := {ForPair(5)}, runs := [r]);
    var s2 := s1.(runs := [r.(attempts := 1, phase := Failed(InvalidJobPayload))]);
    var events := [Upload(Some(5), true), Begin(0, Some(InvalidJobPayload)), Upload(Some(5), true)];
    assert Step(Init(false), events[0]) == s1;
    assert Step(s1, events[1]) == s2;
    assert Step(s2, events[2]) == s2;
    RunThrough(false, [], events, [Init(false), s1, s2, s2]);
    assert [] + events == events;
  }

  /** An upload's own key is only on requests that may open a case. */
  predicate UploadsMayOpen(runs: seq<Delivery>) {
    forall i: nat | i < |runs| :: !runs[i].request.key.Fresh? ==> runs[i].request.mayOpen
  }

  lemma {:induction false} EveryUploadMayOpen(arrivedHeld: bool, events: seq<Event>)
    requires PaidReads.SentRun(arrivedHeld, events)
    ensures UploadsMayOpen(Run(arrivedHeld, events).runs)
  {
    if events != [] {
      var before := events[..|events| - 1];
      var e := events[|events| - 1];
      forall k | 0 <= k < |before| ensures PaidReads.AsSent(Run(arrivedHeld, before[..k]).facts, before[k]) {
        assert before[..k] == events[..k];
      }
      EveryUploadMayOpen(arrivedHeld, before);
      assert PaidReads.AsSent(Run(arrivedHeld, before).facts, e);
      RequestsStay(Run(arrivedHeld, before), e);
    }
  }

  lemma RequestsStay(s: State, e: Event)
    requires UploadsMayOpen(s.runs) && (e.Upload? ==> e.mayOpen)
    ensures UploadsMayOpen(Step(s, e).runs)
  {
    var t := Step(s, e);
    if !e.Upload? && !e.ReDrive? {
      forall i: nat | i < |t.runs| ensures i < |s.runs| && t.runs[i].request == s.runs[i].request {}
    }
  }

  /** Of the requests the app sends, a swallowed upload is the very request a started run was given. */
  lemma SwallowedAsksTheSame(arrivedHeld: bool, events: seq<Event>, target: Option<nat>)
    requires PaidReads.SentRun(arrivedHeld, events)
    requires Run(arrivedHeld, events + [Upload(target, true)]).runs == Run(arrivedHeld, events).runs
    ensures exists i: nat | i < |Run(arrivedHeld, events).runs| ::
              Run(arrivedHeld, events).runs[i].request == Request(target, true, UploadKey(target))
  {
    SwallowedUploadHasItsRun(arrivedHeld, events, target, true);
    EveryUploadMayOpen(arrivedHeld, events);
  }
}
