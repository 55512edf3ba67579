/** What an undisturbed sync does with the invoices it walks, and what ends one. */
module LedgerWalk {
  import opened LedgerSync

  /** Each of these invoices considered, and linked if a case was opened for it. */
  function WalkEvents(i: nat, invoices: seq<nat>, same: bool): seq<Event> {
    if invoices == [] then []
    else WalkEvents(i, invoices[..|invoices| - 1], same) + [Consider(i, invoices[|invoices| - 1], same), LinkCase(i)]
  }

  function SyncEvents(i: nat, org: nat, invoices: seq<nat>, same: bool): seq<Event> {
    [Begin(org), ReadKnown(i)] + WalkEvents(i, invoices, same) + [End(i)]
  }

  /** A linked case of its own for every invoice that no linked case of its tenant has. */
  function NewRows(cases: seq<CaseRow>, org: nat, invoices: seq<nat>, opener: nat): seq<CaseRow> {
    if invoices == [] then []
    else
      var last := invoices[|invoices| - 1];
      NewRows(cases, org, invoices[..|invoices| - 1], opener) +
      if exists k :: 0 <= k < |cases| && cases[k].org == org && cases[k].invoice == last && cases[k].linked then []
      else [CaseRow(org, last, true, opener)]
  }

  lemma RunSnoc(x: Setting, events: seq<Event>, e: Event)
    ensures Run(x, events + [e]) == Step(x, Run(x, events), e)
  {
    assert (events + [e])[..|events|] == events;
  }

  lemma {:induction false} NobodyCounts(syncs: seq<Sync>, org: nat)
    requires forall i :: 0 <= i < |syncs| ==> Over(syncs[i].phase)
    ensures Count(syncs) == 0 && CountFor(syncs, org) == 0
  {
    if syncs != [] { NobodyCounts(syncs[..|syncs| - 1], org); }
  }

  lemma {:induction false} NewRowsHave(cases: seq<CaseRow>, org: nat, invoices: seq<nat>, opener: nat, invoice: nat)
    ensures Has(cases + NewRows(cases, org, invoices, opener), org, invoice) ==> Has(cases, org, invoice) || invoice in invoices
  {
    if invoices != [] {
      var init := invoices[..|invoices| - 1];
      NewRowsHave(cases, org, init, opener, invoice);
      var (before, after) := (cases + NewRows(cases, org, init, opener), cases + NewRows(cases, org, invoices, opener));
      if Has(after, org, invoice) {
        var k :| 0 <= k < |after| && after[k].org == org && after[k].invoice == invoice && after[k].linked;
        if k < |before| { assert before[k] == after[k]; } else { assert invoice == invoices[|invoices| - 1]; }
      }
    }
  }

  function Among(invoices: seq<nat>): (among: set<nat>)
    ensures forall n :: n in among <==> n in invoices
  {
    set n | n in invoices
  }

  /** One more sync than here, in this phase, with these cases. */
  function Alone(s: State, org: nat, p: Phase, cases: seq<CaseRow>): State {
    State(s.syncs + [Sync(org, p)], cases)
  }

  /** The state of a sync that has walked so far, alone. */
  function Walked(s: State, org: nat, invoices: seq<nat>): State {
    Alone(s, org, Walking(Known(s.cases, org), Among(invoices)), s.cases + NewRows(s.cases, org, invoices, |s.syncs|))
  }

  lemma AlonePut(s: State, org: nat, p: Phase, q: Phase, cases: seq<CaseRow>)
    ensures Put(Alone(s, org, p, cases), |s.syncs|, q) == Alone(s, org, q, cases)
  {
    assert (s.syncs + [Sync(org, p)])[|s.syncs| := Sync(org, q)] == s.syncs + [Sync(org, q)];
  }

  lemma ConsiderAlone(x: Setting, s: State, org: nat, known: set<nat>, tried: set<nat>, cases: seq<CaseRow>, invoice: nat, same: bool)
    requires invoice !in tried && (Has(cases, org, invoice) ==> invoice in known)
    ensures Step(x, Alone(s, org, Walking(known, tried), cases), Consider(|s.syncs|, invoice, same)) ==
            if invoice in known then Alone(s, org, Walking(known, tried + {invoice}), cases)
            else Alone(s, org, Linking(|cases|, known, tried), cases + [CaseRow(org, invoice, false, |s.syncs|)])
  {
    AlonePut(s, org, Walking(known, tried), Walking(known, tried + {invoice}), cases);
    AlonePut(s, org, Walking(known, tried), Linking(|cases|, known, tried), cases);
  }

  lemma LinkAlone(x: Setting, s: State, org: nat, known: set<nat>, tried: set<nat>, cases: seq<CaseRow>, invoice: nat)
    ensures var (i, row) := (|s.syncs|, CaseRow(org, invoice, false, |s.syncs|));
            Step(x, Alone(s, org, Linking(|cases|, known, tried), cases + [row]), LinkCase(i)) ==
            Alone(s, org, Walking(known, tried + {invoice}), cases + [row.(linked := true)])
    ensures Step(x, Alone(s, org, Walking(known, tried), cases), LinkCase(|s.syncs|)) == Alone(s, org, Walking(known, tried), cases)
  {
    var row := CaseRow(org, invoice, false, |s.syncs|);
    AlonePut(s, org, Linking(|cases|, known, tried), Walking(known, tried + {invoice}), cases + [row]);
    assert (cases + [row])[|cases| := row.(linked := true)] == cases + [row.(linked := true)];
  }

  lemma NewRowsSnoc(cases: seq<CaseRow>, org: nat, invoices: seq<nat>, invoice: nat, opener: nat)
    ensures cases + NewRows(cases, org, invoices + [invoice], opener) ==
            if invoice in Known(cases, org) then cases + NewRows(cases, org, invoices, opener)
            else cases + NewRows(cases, org, invoices, opener) + [CaseRow(org, invoice, true, opener)]
  {
    assert (invoices + [invoice])[..|invoices|] == invoices;
    assert Has(cases, org, invoice) <==> exists k :: 0 <= k < |cases| && cases[k].org == org && cases[k].invoice == invoice && cases[k].linked;
  }

  lemma OneInvoice(x: Setting, s: State, org: nat, invoices: seq<nat>, invoice: nat, same: bool)
    requires invoice !in invoices
    ensures var i := |s.syncs|;
            Step(x, Step(x, Walked(s, org, invoices), Consider(i, invoice, same)), LinkCase(i)) == Walked(s, org, invoices + [invoice])
  {
    var (known, tried, cases) := (Known(s.cases, org), Among(invoices), s.cases + NewRows(s.cases, org, invoices, |s.syncs|));
    NewRowsHave(s.cases, org, invoices, |s.syncs|, invoice);
    NewRowsSnoc(s.cases, org, invoices, invoice, |s.syncs|);
    assert Among(invoices + [invoice]) == tried + {invoice};
    ConsiderAlone(x, s, org, known, tried, cases, invoice, same);
    LinkAlone(x, s, org, known, tried, cases, invoice);
    LinkAlone(x, s, org, known, tried + {invoice}, cases, invoice);
  }

  predicate Distinct(invoices: seq<nat>) {
    forall i, j :: 0 <= i < j < |invoices| ==> invoices[i] != invoices[j]
  }

  lemma {:induction false} WalkIsWalked(x: Setting, events: seq<Event>, s: State, org: nat, invoices: seq<nat>, same: bool)
    requires Run(x, events) == Walked(s, org, []) && Distinct(invoices)
    ensures Run(x, events + WalkEvents(|s.syncs|, invoices, same)) == Walked(s, org, invoices)
  {
    if invoices == [] {
      assert events + WalkEvents(|s.syncs|, invoices, same) == events;
    } else {
      var (init, last) := (invoices[..|invoices| - 1], invoices[|invoices| - 1]);
      WalkIsWalked(x, events, s, org, init, same);
      WalkOneMore(x, events, s, org, init, last, same);
      assert init + [last] == invoices;
    }
  }

  lemma WalkOneMore(x: Setting, events: seq<Event>, s: State, org: nat, init: seq<nat>, last: nat, same: bool)
    requires Run(x, events + WalkEvents(|s.syncs|, init, same)) == Walked(s, org, init) && last !in init
    ensures Run(x, events + WalkEvents(|s.syncs|, init + [last], same)) == Walked(s, org, init + [last])
  {
    var i := |s.syncs|;
    var before := events + WalkEvents(i, init, same);
    assert (init + [last])[..|init|] == init;
    assert events + WalkEvents(i, init + [last], same) == before + [Consider(i, last, same)] + [LinkCase(i)];
    RunSnoc(x, before, Consider(i, last, same));
    RunSnoc(x, before + [Consider(i, last, same)], LinkCase(i));
    OneInvoice(x, s, org, init, last, same);
  }

  /**
   With nobody in flight, a sync that walks any distinct invoices ends, and leaves a linked case of its
   own for exactly those its tenant had no linked case for, and nothing else changed.
   */
  lemma SyncOpensExactlyTheNew(x: Setting, events: seq<Event>, org: nat, invoices: seq<nat>, same: bool)
    requires x.perOrg >= 1
    requires forall i, j :: 0 <= i < j < |invoices| ==> invoices[i] != invoices[j]
    requires forall i :: 0 <= i < |Run(x, events).syncs| ==> Over(Run(x, events).syncs[i].phase)
    ensures var s := Run(x, events);
            Run(x, events + SyncEvents(|s.syncs|, org, invoices, same)) ==
            State(s.syncs + [Sync(org, Ended)], s.cases + NewRows(s.cases, org, invoices, |s.syncs|))
  {
    var s := Run(x, events);
    var i := |s.syncs|;
    var read := events + [Begin(org)] + [ReadKnown(i)];
    SyncReads(x, events, org);
    WalkIsWalked(x, read, s, org, invoices, same);
    var walked := read + WalkEvents(i, invoices, same);
    RunSnoc(x, walked, End(i));
    Regroup(events, Begin(org), ReadKnown(i), WalkEvents(i, invoices, same), End(i));
    EndAlone(x, s, org, Walking(Known(s.cases, org), Among(invoices)), s.cases + NewRows(s.cases, org, invoices, i));
  }

  lemma Regroup(events: seq<Event>, a: Event, b: Event, walk: seq<Event>, e: Event)
    ensures events + ([a, b] + walk + [e]) == events + [a] + [b] + walk + [e]
  {
  }

  lemma EndAlone(x: Setting, s: State, org: nat, p: Phase, cases: seq<CaseRow>)
    requires p.Walking?
    ensures Step(x, Alone(s, org, p, cases), End(|s.syncs|)) == Alone(s, org, Ended, cases)
  {
    AlonePut(s, org, p, Ended, cases);
  }

  lemma SyncReads(x: Setting, events: seq<Event>, org: nat)
    requires x.perOrg >= 1
    requires forall i :: 0 <= i < |Run(x, events).syncs| ==> Over(Run(x, events).syncs[i].phase)
    ensures var s := Run(x, events); Run(x, events + [Begin(org)] + [ReadKnown(|s.syncs|)]) == Walked(s, org, [])
  {
    var s := Run(x, events);
    var i := |s.syncs|;
    NobodyCounts(s.syncs, org);
    RunSnoc(x, events, Begin(org));
    RunSnoc(x, events + [Begin(org)], ReadKnown(i));
    assert Among([]) == {};
    var p := Walking(Known(s.cases, org), {});
    assert (s.syncs + [Sync(org, Starting)])[i := Sync(org, p)] == s.syncs + [Sync(org, p)];
  }

  /** A sync that ends or dies is over, and lost exactly where it had opened a case and not linked it. */
  lemma DyingIsOver(x: Setting, s: State, i: nat)
    requires i < |s.syncs|
    ensures var (p, q) := (s.syncs[i].phase, Step(x, s, Die(i)).syncs[i].phase);
            (p.Starting? || p.Walking? ==> q == Ended) &&
            (p.Linking? ==> q == if x.diesBetween then Lost(p.row) else p) &&
            (p.Ended? || p.Lost? ==> q == p) && Step(x, s, Die(i)).cases == s.cases
    ensures s.syncs[i].phase.Walking? ==> Step(x, s, End(i)).syncs[i].phase == Ended
  {
  }

  /**
   Only the case of the very same extract is handed back to a sync that does not know it: any other
   invoice linked since it read what is known gets a second case.
   */
  lemma OnlyTheSameExtractIsReused(x: Setting, s: State, i: nat, invoice: nat, same: bool)
    requires i < |s.syncs| && s.syncs[i].phase.Walking? && invoice !in s.syncs[i].phase.known && invoice !in s.syncs[i].phase.tried
    requires Has(s.cases, s.syncs[i].org, invoice)
    ensures Step(x, s, Consider(i, invoice, same)).cases ==
            if same then s.cases else s.cases + [CaseRow(s.syncs[i].org, invoice, false, i)]
  {
  }
}
