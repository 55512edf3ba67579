/**
 A person's retry settles a row, whatever its earlier runs left behind.
 */
module PostingRetry {
  import opened Posting

  predicate KeyMinted(k: Key, nextFresh: nat) {
    k.Fresh? ==> k.n < nextFresh
  }

  predicate FreshInv(s: State) {
    (forall r :: r in s.queue ==> KeyMinted(r.key, s.nextFresh)) &&
    (forall k :: k in s.window ==> KeyMinted(k, s.nextFresh))
  }

  lemma FreshStepKept(s: State, e: Event)
    requires FreshInv(s)
    ensures FreshInv(Step(s, e))
  {
    var t := Step(s, e);
    forall r | r in t.queue ensures KeyMinted(r.key, t.nextFresh) {
      if r in s.queue { assert KeyMinted(r.key, s.nextFresh); }
    }
    forall k | k in t.window ensures KeyMinted(k, t.nextFresh) {
      if k in s.window { assert KeyMinted(k, s.nextFresh); }
    }
  }

  /** Every key in the window or on the queue was minted before the next one. */
  lemma {:induction false} EveryRunKeepsFresh(dedupes: bool, events: seq<Event>)
    ensures FreshInv(Run(dedupes, events))
  {
    if events != [] {
      EveryRunKeepsFresh(dedupes, events[..|events| - 1]);
      FreshStepKept(Run(dedupes, events[..|events| - 1]), events[|events| - 1]);
    }
  }

  /** A retry whose every call is answered. Steps its run has no use for change nothing. */
  function RetryEvents(key: Key, w: WritebackId): seq<Event> {
    [PressRetry(w, true), Deliver(Request(w, key, true)), Load(true), Build(None),
     Look(true, true), Send(Answered), ReadBack(true, true), Record(true)]
  }

  function LooksAndSends(s: State): State {
    Step(Step(Step(Step(s, Look(true, true)), Send(Answered)), ReadBack(true, true)), Record(true))
  }

  function RetriedBy(s: State, key: Key, w: WritebackId): State {
    LooksAndSends(Step(Step(Step(Step(s, PressRetry(w, true)), Deliver(Request(w, key, true))), Load(true)), Build(None)))
  }

  lemma RetryIsRun(dedupes: bool, events: seq<Event>, key: Key, w: WritebackId)
    ensures Run(dedupes, events + RetryEvents(key, w)) == RetriedBy(Run(dedupes, events), key, w)
  {
    var all := RetryEvents(key, w);
    assert events + all[..0] == events;
    forall k: nat | k < 8
      ensures Run(dedupes, events + all[..k + 1]) == Step(Run(dedupes, events + all[..k]), all[k])
    {
      RunSnoc(dedupes, events + all[..k], all[k]);
      assert events + all[..k + 1] == events + all[..k] + [all[k]];
    }
    assert all[..8] == all;
    NestedSteps(dedupes, events, all);
  }

  lemma NestedSteps(dedupes: bool, events: seq<Event>, all: seq<Event>)
    requires |all| == 8
    requires forall k: nat | k < 8 ::
      Run(dedupes, events + all[..k + 1]) == Step(Run(dedupes, events + all[..k]), all[k])
    ensures var s := Run(dedupes, events + all[..0]);
            Run(dedupes, events + all[..8]) ==
            Step(Step(Step(Step(Step(Step(Step(Step(s, all[0]), all[1]), all[2]), all[3]), all[4]), all[5]), all[6]), all[7])
  {
  }

  /** A row a person's retry can still settle. */
  predicate Retriable(s: State, w: WritebackId) {
    s.job.Idle? && w in s.rows.Keys && !s.rows[w].status.Succeeded? && w.decision !in s.voided &&
    (w.kind.PaymentApplication? ==> EntryVerified(s.rows, w.decision)) &&
    !HoldsTwo(s.sends, w)
  }

  lemma RetryStartsToLook(s: State, w: WritebackId, key: Key)
    requires Retriable(s, w) && key == Fresh(s.nextFresh) && key !in s.window
    ensures var t := Step(Step(Step(Step(s, PressRetry(w, true)), Deliver(Request(w, key, true))), Load(true)), Build(None));
            t.job == Running(w, true, AtLook, false) && t.sends == s.sends && t.dedupes == s.dedupes &&
            t.rows == s.rows[w := s.rows[w].(status := Pending)]
  {
    var s1 := Step(s, PressRetry(w, true));
    assert s1.rows[w].status.Pending?;
    var s2 := Step(s1, Deliver(Request(w, key, true)));
    assert s2 == s1.(window := s1.window + {key}, job := Running(w, true, AtLoad, false));
  }

  lemma LookFindsIt(s: State, w: WritebackId)
    requires s.job == Running(w, true, AtLook, false) && w in s.rows.Keys && !HoldsTwo(s.sends, w) && Holds(s.sends, w)
    ensures var t := LooksAndSends(s);
            w in t.rows.Keys && t.rows[w].status.Succeeded? && t.sends == s.sends
  {
    var s1 := Step(s, Look(true, true));
    assert s1 == s.(job := Running(w, true, AtRecord(Succeeded, FoundOnRetry), false));
    assert Step(Step(s1, Send(Answered)), ReadBack(true, true)) == s1;
  }

  lemma LookFindsNothing(s: State, w: WritebackId)
    requires s.job == Running(w, true, AtLook, false) && w in s.rows.Keys && !Holds(s.sends, w)
    ensures var t := LooksAndSends(s);
            w in t.rows.Keys && t.rows[w].status.Succeeded? && t.sends == s.sends + [SendMade(w, Landed, true)]
  {
    assert !HoldsTwo(s.sends, w);
    var s1 := Step(s, Look(true, true));
    assert s1 == s.(job := Running(w, true, AtSend, false));
    var s2 := Step(s1, Send(Answered));
    assert s2 == s.(job := Running(w, true, AtReadBack, true), sends := s.sends + [SendMade(w, Landed, false)]);
    var s3 := Step(s2, ReadBack(true, true));
    assert s3 == s2.(job := Running(w, true, AtRecord(Succeeded, SentAndVerified), true));
    assert s2.sends[|s.sends| := s2.sends[|s.sends|].(recorded := true)] == s.sends + [SendMade(w, Landed, true)];
  }

  /**
   Whatever happened before, with the connection idle one answered retry settles a row that has
   at most one entry: it succeeds with exactly one, and sends only if the books held none.
   */
  lemma RetrySettles(dedupes: bool, events: seq<Event>, w: WritebackId)
    requires Retriable(Run(dedupes, events), w)
    ensures var s := Run(dedupes, events);
            var t := Run(dedupes, events + RetryEvents(Fresh(s.nextFresh), w));
            w in t.rows.Keys && t.rows[w].status.Succeeded? && Holds(t.sends, w) && !HoldsTwo(t.sends, w) &&
            t.sends == if Holds(s.sends, w) then s.sends else s.sends + [SendMade(w, Landed, true)]
  {
    var s := Run(dedupes, events);
    var key := Fresh(s.nextFresh);
    RetryIsRun(dedupes, events, key, w);
    EveryRunKeepsFresh(dedupes, events);
    assert key !in s.window by {
      assert !KeyMinted(key, s.nextFresh);
    }
    RetryStartsToLook(s, w, key);
    RetryEnds(s, Step(Step(Step(Step(s, PressRetry(w, true)), Deliver(Request(w, key, true))), Load(true)), Build(None)), w);
  }

  lemma RetryEnds(s: State, looking: State, w: WritebackId)
    requires !HoldsTwo(s.sends, w) && looking.sends == s.sends
    requires looking.job == Running(w, true, AtLook, false) && w in looking.rows.Keys
    ensures var t := LooksAndSends(looking);
            w in t.rows.Keys && t.rows[w].status.Succeeded? && Holds(t.sends, w) && !HoldsTwo(t.sends, w) &&
            t.sends == if Holds(s.sends, w) then s.sends else s.sends + [SendMade(w, Landed, true)]
  {
    if Holds(s.sends, w) {
      LookFindsIt(looking, w);
    } else {
      LookFindsNothing(looking, w);
      OneMore(s.sends, w);
    }
  }

  lemma OneMore(sends: seq<SendMade>, w: WritebackId)
    requires !Holds(sends, w)
    ensures var after := sends + [SendMade(w, Landed, true)]; Holds(after, w) && !HoldsTwo(after, w)
  {
    var after := sends + [SendMade(w, Landed, true)];
    assert LandedFor(after, |sends|, w);
    forall i: nat | i < |sends| ensures !LandedFor(after, i, w) { assert !LandedFor(sends, i, w); }
  }
}
