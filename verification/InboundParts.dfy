/**
 The parts of an inbound email: what each is recorded as while the daily budget lasts
 (`receiveInboundEmail`'s loop), and which documents the email's job then reads
 (`readInboundEmailJob`). Documents are deduplicated by their bytes, so a document's id stands
 for its content.
 */
module InboundParts {

  datatype Kind = Attachment | Body

  /** How the front door and the scanner answer one file. */
  datatype Verdict = Clean | Infected | Rejected | ScanFailed

  /** A planned part: dropped before the door, or a file with its document and its verdict. */
  datatype Plan = Dropped(kind: Kind) | FilePart(kind: Kind, document: nat, verdict: Verdict)

  datatype Outcome = Stored | AlreadyHeld | NotClean | OverDailyBudget | Turned

  datatype Part = Part(kind: Kind, outcome: Outcome, document: nat)

  datatype Option<+T> = None | Some(value: T)

  const INBOUND_READS_PER_DAY := 100

  /** The job reads these. */
  predicate Readable(p: Part) {
    p.outcome.Stored? || p.outcome.AlreadyHeld?
  }

  predicate IsCleanFile(p: Plan) {
    p.FilePart? && p.verdict.Clean?
  }

  function CleanFiles(plans: seq<Plan>): nat {
    if plans == [] then 0
    else CleanFiles(plans[..|plans| - 1]) + if IsCleanFile(plans[|plans| - 1]) then 1 else 0
  }

  function ReadableCount(parts: seq<Part>): nat {
    if parts == [] then 0
    else ReadableCount(parts[..|parts| - 1]) + if Readable(parts[|parts| - 1]) then 1 else 0
  }

  function Min(a: int, b: int): int { if a < b then a else b }

  function Max(a: int, b: int): int { if a < b then b else a }

  /** The reads the day has left when the email arrives. */
  function Left(readsLastDay: nat): nat {
    Max(0, INBOUND_READS_PER_DAY - readsLastDay)
  }

  /** A day has a hundred reads. */
  lemma LeftExactly(readsLastDay: nat)
    ensures Left(readsLastDay) == if readsLastDay < 100 then 100 - readsLastDay else 0
  {
  }

  /** The documents these parts leave held: every file the front door does not reject. */
  function DocumentsOf(plans: seq<Plan>): set<nat> {
    if plans == [] then {}
    else
      DocumentsOf(plans[..|plans| - 1]) + DocumentOf(plans[|plans| - 1])
  }

  function DocumentOf(plan: Plan): set<nat> {
    if plan.FilePart? && !plan.verdict.Rejected? then {plan.document} else {}
  }

  /** The tenant's documents, as the deliveries so far have left them. */
  class Documents {
    var held: set<nat>
  }

  /** A readable part is already held when its bytes were, before this email or earlier in it. */
  predicate HeldAs(plans: seq<Plan>, k: nat, held: set<nat>, p: Part)
    requires k < |plans|
  {
    p.outcome.AlreadyHeld? || p.outcome.Stored? ==>
      (p.outcome.AlreadyHeld? <==> plans[k].FilePart? && plans[k].document in held + DocumentsOf(plans[..k]))
  }

  /** What a part is recorded as, said without the documents already held. */
  predicate RecordedAs(plans: seq<Plan>, k: nat, readsLastDay: nat, p: Part)
    requires k < |plans|
  {
    p.kind == plans[k].kind &&
    (plans[k].FilePart? && !plans[k].verdict.Rejected? ==> p.document == plans[k].document) &&
    (Readable(p) <==> IsCleanFile(plans[k]) && CleanFiles(plans[..k]) < Left(readsLastDay)) &&
    (p.outcome.OverDailyBudget? <==> IsCleanFile(plans[k]) && CleanFiles(plans[..k]) >= Left(readsLastDay)) &&
    (p.outcome.NotClean? <==> plans[k].FilePart? && plans[k].verdict.Infected?)
  }

  /** One part: through the front door and the scanner, then the day's budget. */
  method ReceivePart(documents: Documents, plan: Plan, spent: nat) returns (r: Option<Part>)
    modifies documents
    ensures r.None? <==> plan.FilePart? && plan.verdict.ScanFailed?
    ensures documents.held == old(documents.held) + DocumentOf(plan)
    ensures r.Some? ==>
              r.value.outcome == (
                if plan.Dropped? || plan.verdict == Rejected then Turned
                else if plan.verdict == Infected then NotClean
                else if spent >= 100 then OverDailyBudget
                else if plan.document in old(documents.held) then AlreadyHeld else Stored)
    ensures plan.Dropped? || plan.verdict == Rejected ==> documents.held == old(documents.held)
    ensures plan.FilePart? && plan.verdict != Rejected ==> documents.held == old(documents.held) + {plan.document}
    ensures r.Some? ==>
              r.value.kind == plan.kind &&
              (plan.FilePart? && !plan.verdict.Rejected? ==> r.value.document == plan.document) &&
              (Readable(r.value) <==> IsCleanFile(plan) && spent < INBOUND_READS_PER_DAY) &&
              (r.value.outcome.OverDailyBudget? <==> IsCleanFile(plan) && spent >= INBOUND_READS_PER_DAY) &&
              (r.value.outcome.NotClean? <==> plan.FilePart? && plan.verdict.Infected?) &&
              (Readable(r.value) ==> (r.value.outcome.AlreadyHeld? <==> plan.document in old(documents.held)))
  {
    if plan.Dropped? || plan.verdict.Rejected? { return Some(Part(plan.kind, Turned, 0)); }
    var deduplicated := plan.document in documents.held;
    documents.held := documents.held + {plan.document};
    if plan.verdict.ScanFailed? { return None; }
    var outcome :=
      if plan.verdict.Infected? then NotClean
      else if spent >= INBOUND_READS_PER_DAY then OverDailyBudget
      else if deduplicated then AlreadyHeld
      else Stored;
    return Some(Part(plan.kind, outcome, plan.document));
  }

  /**
   The loop over an email's parts. Which parts the job may read is decided by the email and the
   day's reads alone: `documents.held`, which holds whatever deliveries that died left, decides
   only between stored and already held. A scanner that fails ends the delivery with nothing
   recorded, and every document it stored kept.
   */
  method ReceiveParts(documents: Documents, plans: seq<Plan>, readsLastDay: nat) returns (r: Option<seq<Part>>)
    modifies documents
    ensures r.Some? <==> forall k :: 0 <= k < |plans| ==> plans[k].FilePart? ==> !plans[k].verdict.ScanFailed?
    ensures r.Some? ==> |r.value| == |plans| && forall k :: 0 <= k < |plans| ==> RecordedAs(plans, k, readsLastDay, r.value[k])
    ensures r.Some? ==> forall k :: 0 <= k < |plans| && Readable(r.value[k]) ==> r.value[k].document in documents.held
    ensures r.Some? ==> ReadableCount(r.value) == Min(CleanFiles(plans), Left(readsLastDay))
    ensures r.Some? ==> forall k :: 0 <= k < |plans| ==> HeldAs(plans, k, old(documents.held), r.value[k])
    ensures r.Some? ==> documents.held == old(documents.held) + DocumentsOf(plans)
    ensures old(documents.held) <= documents.held
  {
    var spent := readsLastDay;
    var parts := [];
    for i := 0 to |plans|
      invariant |parts| == i && old(documents.held) <= documents.held
      invariant forall k :: 0 <= k < i ==> plans[k].FilePart? ==> !plans[k].verdict.ScanFailed?
      invariant spent == readsLastDay + Min(CleanFiles(plans[..i]), Left(readsLastDay))
      invariant ReadableCount(parts) == Min(CleanFiles(plans[..i]), Left(readsLastDay))
      invariant forall k :: 0 <= k < i ==> RecordedAs(plans, k, readsLastDay, parts[k])
      invariant forall k :: 0 <= k < i && Readable(parts[k]) ==> parts[k].document in documents.held
      invariant documents.held == old(documents.held) + DocumentsOf(plans[..i])
      invariant forall k :: 0 <= k < i ==> HeldAs(plans, k, old(documents.held), parts[k])
    {
      assert plans[..i + 1][..i] == plans[..i];
      var received := ReceivePart(documents, plans[i], spent);
      if received.None? { return None; }
      var part := received.value;
      if Readable(part) { spent := spent + 1; }
      assert (parts + [part])[..i] == parts;
      parts := parts + [part];
    }
    assert plans[..|plans|] == plans;
    return Some(parts);
  }

  /** What each of two deliveries recorded, the day's reads having moved from `before` to `now` between them. */
  predicate RecordedTwice(plans: seq<Plan>, before: nat, now: nat, first: seq<Part>, second: seq<Part>) {
    |first| == |second| == |plans| &&
    (forall k :: 0 <= k < |plans| ==> RecordedAs(plans, k, before, first[k])) &&
    (forall k :: 0 <= k < |plans| ==> RecordedAs(plans, k, now, second[k]))
  }

  /** The clean files a day with these reads lets through. */
  function LetThrough(plans: seq<Plan>, readsLastDay: nat): nat {
    Min(CleanFiles(plans), Left(readsLastDay))
  }

  /**
   A redelivery that finds the day further spent reads a leading part of what the first delivery
   would have read; after deliveries that died, with as many let through, it reads exactly that.
   */
  lemma RedeliveryReads(plans: seq<Plan>, before: nat, now: nat, first: seq<Part>, second: seq<Part>)
    requires RecordedTwice(plans, before, now, first, second) && before <= now
    ensures ReadQueue(second) <= ReadQueue(first)
    ensures LetThrough(plans, before) == LetThrough(plans, now) ==>
              ReadQueue(first) == ReadQueue(second) && ReadableBody(first) == ReadableBody(second)
  {
    QueuesLead(plans, before, now, first, second, |plans|);
    assert first[..|plans|] == first && second[..|plans|] == second && plans[..|plans|] == plans;
    if LetThrough(plans, before) == LetThrough(plans, now) { SamePartsAreRead(plans, before, now, first, second); }
  }

  /** The parts read are the same exactly when the day lets as many through. */
  lemma SamePartsExactly(plans: seq<Plan>, before: nat, now: nat, first: seq<Part>, second: seq<Part>)
    requires RecordedTwice(plans, before, now, first, second)
    ensures (forall k :: 0 <= k < |plans| ==> (Readable(first[k]) <==> Readable(second[k]))) <==>
            LetThrough(plans, before) == LetThrough(plans, now)
  {
    ReadableAreLetThrough(plans, before, first, |plans|);
    ReadableAreLetThrough(plans, now, second, |plans|);
    assert first[..|plans|] == first && second[..|plans|] == second && plans[..|plans|] == plans;
    if LetThrough(plans, before) == LetThrough(plans, now) {
      forall k | 0 <= k < |plans| ensures Readable(first[k]) <==> Readable(second[k]) {
        if IsCleanFile(plans[k]) { CleanBeforeEnd(plans, k); }
      }
    } else if forall k :: 0 <= k < |plans| ==> (Readable(first[k]) <==> Readable(second[k])) {
      SameReadable(first, second);
    }
  }

  lemma {:induction false} ReadableAreLetThrough(plans: seq<Plan>, readsLastDay: nat, parts: seq<Part>, n: nat)
    requires n <= |plans| == |parts| && forall k :: 0 <= k < |plans| ==> RecordedAs(plans, k, readsLastDay, parts[k])
    ensures ReadableCount(parts[..n]) == LetThrough(plans[..n], readsLastDay)
  {
    if n > 0 {
      ReadableAreLetThrough(plans, readsLastDay, parts, n - 1);
      assert parts[..n][..n - 1] == parts[..n - 1] && plans[..n][..n - 1] == plans[..n - 1];
      assert RecordedAs(plans, n - 1, readsLastDay, parts[n - 1]);
    }
  }

  lemma {:induction false} CleanBeforeEnd(plans: seq<Plan>, k: nat)
    requires k < |plans| && IsCleanFile(plans[k])
    ensures CleanFiles(plans[..k]) < CleanFiles(plans)
  {
    var n := |plans| - 1;
    if k < n {
      CleanBeforeEnd(plans[..n], k);
      assert plans[..n][..k] == plans[..k];
    }
  }

  lemma {:induction false} SameReadable(first: seq<Part>, second: seq<Part>)
    requires |first| == |second| && forall k :: 0 <= k < |first| ==> (Readable(first[k]) <==> Readable(second[k]))
    ensures ReadableCount(first) == ReadableCount(second)
  {
    if first != [] { SameReadable(first[..|first| - 1], second[..|second| - 1]); }
  }

  lemma SamePartsAreRead(plans: seq<Plan>, before: nat, now: nat, first: seq<Part>, second: seq<Part>)
    requires RecordedTwice(plans, before, now, first, second) && LetThrough(plans, before) == LetThrough(plans, now)
    ensures ReadQueue(first) == ReadQueue(second) && ReadableBody(first) == ReadableBody(second)
  {
    SamePartsExactly(plans, before, now, first, second);
    SameQueues(plans, before, now, first, second, |plans|);
    assert first[..|plans|] == first && second[..|plans|] == second;
    SameBodies(plans, before, now, first, second, 0);
  }

  // -------------------------------------------------------------------------
  // The email's job
  // -------------------------------------------------------------------------

  datatype DocType = Notice | OtherType

  predicate AsksFor(p: Part) {
    p.kind.Attachment? && Readable(p)
  }

  /** The documents of the readable attachments, each at its first place. */
  function ReadQueue(parts: seq<Part>): seq<nat> {
    if parts == [] then []
    else
      var (before, last) := (ReadQueue(parts[..|parts| - 1]), parts[|parts| - 1]);
      if AsksFor(last) && last.document !in before then before + [last.document] else before
  }

  /** The first readable body. */
  function ReadableBody(parts: seq<Part>): Option<nat> {
    BodyFrom(parts, 0)
  }

  function BodyFrom(parts: seq<Part>, k: nat): Option<nat>
    requires k <= |parts|
    decreases |parts| - k
  {
    if k == |parts| then None
    else if parts[k].kind.Body? && Readable(parts[k]) then Some(parts[k].document)
    else BodyFrom(parts, k + 1)
  }

  /** The body read is the document of the first part that is a body and stored, or held already. */
  lemma BodyExactly(parts: seq<Part>, d: nat)
    ensures ReadableBody(parts) == Some(d) <==>
            exists k :: 0 <= k < |parts| && IsReadableBody(parts[k]) && parts[k].document == d &&
              forall j :: 0 <= j < k ==> !IsReadableBody(parts[j])
  {
    BodyFromExactly(parts, 0, d);
  }

  predicate IsReadableBody(p: Part) {
    p.kind == Body && (p.outcome == Stored || p.outcome == AlreadyHeld)
  }

  lemma {:induction false} BodyFromExactly(parts: seq<Part>, from: nat, d: nat)
    requires from <= |parts|
    ensures BodyFrom(parts, from) == Some(d) <==>
            exists k :: from <= k < |parts| && IsReadableBody(parts[k]) && parts[k].document == d &&
              forall j :: from <= j < k ==> !IsReadableBody(parts[j])
    decreases |parts| - from
  {
    if from < |parts| {
      BodyFromExactly(parts, from + 1, d);
      if !IsReadableBody(parts[from]) && BodyFrom(parts, from + 1) == Some(d) {
        var k :| from + 1 <= k < |parts| && IsReadableBody(parts[k]) && parts[k].document == d &&
          forall j :: from + 1 <= j < k ==> !IsReadableBody(parts[j]);
        assert forall j :: from <= j < k ==> !IsReadableBody(parts[j]);
      }
    }
  }

  /** A document to be read: that of an attachment stored, or held already. */
  predicate IsReadableAttachment(p: Part) {
    p.kind == Attachment && (p.outcome == Stored || p.outcome == AlreadyHeld)
  }

  /** Documents are read in the order in which the email first asks for them. */
  lemma {:induction false} QueueInOrder(parts: seq<Part>, i: nat, j: nat, k: nat)
    requires i < j < |ReadQueue(parts)|
    requires k < |parts| && IsReadableAttachment(parts[k]) && parts[k].document == ReadQueue(parts)[j]
    ensures exists k' :: 0 <= k' < k && IsReadableAttachment(parts[k']) && parts[k'].document == ReadQueue(parts)[i]
  {
    var init := parts[..|parts| - 1];
    var queue := ReadQueue(init);
    if j < |queue| {
      if k < |init| {
        QueueInOrder(init, i, j, k);
        var k' :| 0 <= k' < k && IsReadableAttachment(init[k']) && init[k'].document == queue[i];
        assert parts[k'] == init[k'];
      } else {
        QueueExactly(init);
        assert queue[i] in queue;
        var k' :| 0 <= k' < |init| && AsksFor(init[k']) && init[k'].document == queue[i];
        assert parts[k'] == init[k'];
      }
    } else {
      QueueExactly(init);
      forall m | 0 <= m < |init| && AsksFor(init[m]) ensures init[m].document in queue {}
      assert queue[i] in queue;
      var k' :| 0 <= k' < |init| && AsksFor(init[k']) && init[k'].document == queue[i];
      assert parts[k'] == init[k'];
    }
  }

  /** Once the later delivery may read no more, it stops; until then the two go together. */
  lemma {:induction false} QueuesLead(plans: seq<Plan>, before: nat, now: nat, first: seq<Part>, second: seq<Part>, n: nat)
    requires RecordedTwice(plans, before, now, first, second) && before <= now && n <= |plans|
    ensures ReadQueue(second[..n]) <= ReadQueue(first[..n])
    ensures CleanFiles(plans[..n]) <= Left(now) ==> ReadQueue(second[..n]) == ReadQueue(first[..n])
  {
    if n > 0 {
      QueuesLead(plans, before, now, first, second, n - 1);
      assert first[..n][..n - 1] == first[..n - 1] && second[..n][..n - 1] == second[..n - 1];
      assert plans[..n][..n - 1] == plans[..n - 1];
      assert RecordedAs(plans, n - 1, before, first[n - 1]) && RecordedAs(plans, n - 1, now, second[n - 1]);
    }
  }

  lemma {:induction false} SameQueues(plans: seq<Plan>, before: nat, now: nat, first: seq<Part>, second: seq<Part>, n: nat)
    requires RecordedTwice(plans, before, now, first, second) && n <= |plans|
    requires forall k :: 0 <= k < |plans| ==> (Readable(first[k]) <==> Readable(second[k]))
    ensures ReadQueue(first[..n]) == ReadQueue(second[..n])
  {
    if n > 0 {
      SameQueues(plans, before, now, first, second, n - 1);
      assert first[..n][..n - 1] == first[..n - 1] && second[..n][..n - 1] == second[..n - 1];
      assert RecordedAs(plans, n - 1, before, first[n - 1]) && RecordedAs(plans, n - 1, now, second[n - 1]);
    }
  }

  lemma {:induction false} SameBodies(plans: seq<Plan>, before: nat, now: nat, first: seq<Part>, second: seq<Part>, k: nat)
    requires RecordedTwice(plans, before, now, first, second) && k <= |plans|
    requires forall j :: 0 <= j < |plans| ==> (Readable(first[j]) <==> Readable(second[j]))
    ensures BodyFrom(first, k) == BodyFrom(second, k)
    decreases |plans| - k
  {
    if k < |plans| {
      assert RecordedAs(plans, k, before, first[k]) && RecordedAs(plans, k, now, second[k]);
      SameBodies(plans, before, now, first, second, k + 1);
    }
  }

  /** Every readable attachment's document is read once, and nothing else. */
  lemma {:induction false} QueueExactly(parts: seq<Part>)
    ensures forall d :: d in ReadQueue(parts) <==> exists k :: 0 <= k < |parts| && AsksFor(parts[k]) && parts[k].document == d
    ensures forall k :: 0 <= k < |parts| ==> (AsksFor(parts[k]) <==> IsReadableAttachment(parts[k]))
    ensures forall i, j :: 0 <= i < j < |ReadQueue(parts)| ==> ReadQueue(parts)[i] != ReadQueue(parts)[j]
  {
    if parts != [] {
      var init := parts[..|parts| - 1];
      QueueExactly(init);
      forall d | d in ReadQueue(parts) ensures exists k :: 0 <= k < |parts| && AsksFor(parts[k]) && parts[k].document == d {
        if d in ReadQueue(init) {
          var k :| 0 <= k < |init| && AsksFor(init[k]) && init[k].document == d;
          assert parts[k] == init[k];
        }
      }
      forall k | 0 <= k < |parts| && AsksFor(parts[k]) ensures parts[k].document in ReadQueue(parts) {
        if k < |init| { assert init[k] == parts[k]; }
      }
    }
  }

  predicate NoticeAmong(read: seq<nat>, readAs: nat -> DocType) {
    exists k :: 0 <= k < |read| && readAs(read[k]).Notice?
  }

  /**
   `readInboundEmailJob`: one read for each document of the readable attachments, in order, then
   the body exactly when no attachment was a notice and its document was not read already.
   `readAs` is what each document reads as, recorded or read now.
   */
  method ReadInboundEmail(parts: seq<Part>, readAs: nat -> DocType) returns (read: seq<nat>, bodyRead: bool)
    ensures var queue := ReadQueue(parts);
            var body := ReadableBody(parts);
            (bodyRead <==> body.Some? && !NoticeAmong(queue, readAs) && body.value !in queue) &&
            read == if bodyRead then queue + [body.value] else queue
    ensures forall i, j :: 0 <= i < j < |read| ==> read[i] != read[j]
  {
    read := [];
    var asked: set<nat> := {};
    var noticeAttached := false;
    for i := 0 to |parts|
      invariant read == ReadQueue(parts[..i])
      invariant forall d :: d in asked <==> d in read
      invariant noticeAttached <==> NoticeAmong(read, readAs)
    {
      var part := parts[i];
      assert parts[..i + 1][..i] == parts[..i];
      if AsksFor(part) && part.document !in asked {
        asked := asked + {part.document};
        NoticeSnoc(read, part.document, readAs);
        read := read + [part.document];
        noticeAttached := noticeAttached || readAs(part.document).Notice?;
      }
    }
    assert parts[..|parts|] == parts;
    QueueExactly(parts);
    var body := ReadableBody(parts);
    bodyRead := body.Some? && !noticeAttached && body.value !in asked;
    if bodyRead {
      read := read + [body.value];
    }
  }

  lemma NoticeSnoc(read: seq<nat>, d: nat, readAs: nat -> DocType)
    ensures NoticeAmong(read + [d], readAs) <==> NoticeAmong(read, readAs) || readAs(d).Notice?
  {
    var more := read + [d];
    assert more[|read|] == d;
    if NoticeAmong(read, readAs) {
      var k :| 0 <= k < |read| && readAs(read[k]).Notice?;
      assert more[k] == read[k];
    }
  }
}
