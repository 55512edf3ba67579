/**
 Ledger syncs admitted by two limits, one tenant's and the fleet's (`LEDGER_SYNC_CONCURRENCY`),
 and the cases they open. A sync reads the invoices its tenant already has a case for once, at its
 start (`syncLedger`); for each new one it opens a case, and in a later transaction links it and
 writes the identifiers the next sync will know it by (`recordLedgerCase`).
 */
module LedgerSync {

  /** `Linking` and `Lost` name the case opened and not yet linked. */
  datatype Phase =
    | Starting | Walking(known: set<nat>, tried: set<nat>) | Linking(row: nat, known: set<nat>, tried: set<nat>)
    | Ended | Lost(row: nat)

  datatype Sync = Sync(org: nat, phase: Phase)

  datatype CaseRow = CaseRow(org: nat, invoice: nat, linked: bool, opener: nat)

  datatype State = State(syncs: seq<Sync>, cases: seq<CaseRow>)

  /** The tenant's limit, and whether a sync may die between opening a case and linking it. */
  datatype Setting = Setting(perOrg: nat, diesBetween: bool)

  const SYNCS_IN_FLIGHT := 2
  const SYNCS_IN_FLIGHT_PER_ORG := 1

  datatype Event =
    | Begin(org: nat)
    | ReadKnown(i: nat)
    | Consider(i: nat, invoice: nat, sameExtract: bool)
    | LinkCase(i: nat)
    | End(i: nat)
    | Die(i: nat)

  predicate InFlight(p: Phase) {
    p.Starting? || p.Walking? || p.Linking?
  }

  function Count(syncs: seq<Sync>): nat {
    if syncs == [] then 0
    else Count(syncs[..|syncs| - 1]) + if InFlight(syncs[|syncs| - 1].phase) then 1 else 0
  }

  function CountFor(syncs: seq<Sync>, org: nat): nat {
    if syncs == [] then 0
    else
      var last := syncs[|syncs| - 1];
      CountFor(syncs[..|syncs| - 1], org) + if InFlight(last.phase) && last.org == org then 1 else 0
  }

  predicate Has(cases: seq<CaseRow>, org: nat, invoice: nat) {
    exists k :: 0 <= k < |cases| && cases[k].org == org && cases[k].invoice == invoice && cases[k].linked
  }

  /** `knownIdentifiers`: the invoices this tenant's linked cases are known by. */
  function Known(cases: seq<CaseRow>, org: nat): (known: set<nat>)
    ensures forall invoice :: invoice in known <==> Has(cases, org, invoice)
  {
    set k | 0 <= k < |cases| && cases[k].org == org && cases[k].linked :: cases[k].invoice
  }

  // -------------------------------------------------------------------------
  // The steps
  // -------------------------------------------------------------------------

  function Init(): State {
    State([], [])
  }

  predicate Is(s: State, i: nat) {
    i < |s.syncs|
  }

  function Put(s: State, i: nat, p: Phase): State
    requires Is(s, i)
  {
    s.(syncs := s.syncs[i := s.syncs[i].(phase := p)])
  }

  /** A candidate the sync did not know: the case its unchanged extract is already on, or a new one. */
  function ConsiderStep(s: State, i: nat, invoice: nat, sameExtract: bool): State
    requires Is(s, i) && s.syncs[i].phase.Walking?
  {
    var Walking(known, tried) := s.syncs[i].phase;
    var org := s.syncs[i].org;
    if invoice in tried then s
    else if invoice in known || (sameExtract && Has(s.cases, org, invoice)) then
      Put(s, i, Walking(known, tried + {invoice}))
    else
      Put(s, i, Linking(|s.cases|, known, tried)).(cases := s.cases + [CaseRow(org, invoice, false, i)])
  }

  function LinkStep(s: State, i: nat): State
    requires Is(s, i) && s.syncs[i].phase.Linking? && s.syncs[i].phase.row < |s.cases|
  {
    var Linking(row, known, tried) := s.syncs[i].phase;
    Put(s, i, Walking(known, tried + {s.cases[row].invoice})).(cases := s.cases[row := s.cases[row].(linked := true)])
  }

  /** One step; what the limits, the setting or the sync's own place do not allow changes nothing. */
  function Step(x: Setting, s: State, e: Event): State {
    match e
    case Begin(org) =>
      if Count(s.syncs) < SYNCS_IN_FLIGHT && CountFor(s.syncs, org) < x.perOrg
      then s.(syncs := s.syncs + [Sync(org, Starting)])
      else s
    case ReadKnown(i) =>
      if Is(s, i) && s.syncs[i].phase.Starting? then Put(s, i, Walking(Known(s.cases, s.syncs[i].org), {})) else s
    case Consider(i, invoice, sameExtract) =>
      if Is(s, i) && s.syncs[i].phase.Walking? then ConsiderStep(s, i, invoice, sameExtract) else s
    case LinkCase(i) =>
      if Is(s, i) && s.syncs[i].phase.Linking? && s.syncs[i].phase.row < |s.cases| then LinkStep(s, i) else s
    case End(i) => if Is(s, i) && s.syncs[i].phase.Walking? then Put(s, i, Ended) else s
    case Die(i) =>
      if !Is(s, i) || !InFlight(s.syncs[i].phase) then s
      else if !s.syncs[i].phase.Linking? then Put(s, i, Ended)
      else if x.diesBetween then Put(s, i, Lost(s.syncs[i].phase.row))
      else s
  }

  function Run(x: Setting, events: seq<Event>): State {
    if events == [] then Init() else Step(x, Run(x, events[..|events| - 1]), events[|events| - 1])
  }

  // -------------------------------------------------------------------------
  // Admission
  // -------------------------------------------------------------------------

  ghost predicate Admitted(x: Setting, syncs: seq<Sync>) {
    Count(syncs) <= SYNCS_IN_FLIGHT && forall org :: CountFor(syncs, org) <= x.perOrg
  }

  lemma {:induction false} CountOfUpdate(syncs: seq<Sync>, i: nat, p: Phase, org: nat)
    requires i < |syncs| && (InFlight(p) ==> InFlight(syncs[i].phase))
    ensures Count(syncs[i := syncs[i].(phase := p)]) <= Count(syncs)
    ensures CountFor(syncs[i := syncs[i].(phase := p)], org) <= CountFor(syncs, org)
  {
    var n := |syncs| - 1;
    var later := syncs[i := syncs[i].(phase := p)];
    if i < n {
      assert later[..n] == syncs[..n][i := syncs[i].(phase := p)];
      CountOfUpdate(syncs[..n], i, p, org);
    } else {
      assert later[..n] == syncs[..n];
    }
  }

  lemma AdmissionKept(x: Setting, s: State, e: Event)
    requires Admitted(x, s.syncs)
    ensures Admitted(x, Step(x, s, e).syncs)
  {
    var t := Step(x, s, e);
    if e.Begin? {
      assert t != s ==> t.syncs[..|s.syncs|] == s.syncs;
    } else if Is(s, e.i) {
      var p := t.syncs[e.i].phase;
      assert t.syncs == s.syncs[e.i := s.syncs[e.i].(phase := p)];
      CountOfUpdate(s.syncs, e.i, p, 0);
      forall org ensures CountFor(t.syncs, org) <= CountFor(s.syncs, org) { CountOfUpdate(s.syncs, e.i, p, org); }
    }
  }

  /** Every schedule the limits admit has at most two syncs in flight, and one for any tenant. */
  lemma {:induction false} EveryRunIsAdmitted(x: Setting, events: seq<Event>)
    ensures Admitted(x, Run(x, events).syncs)
  {
    if events != [] {
      EveryRunIsAdmitted(x, events[..|events| - 1]);
      AdmissionKept(x, Run(x, events[..|events| - 1]), events[|events| - 1]);
    }
  }

  lemma {:induction false} CountsOne(syncs: seq<Sync>, i: nat)
    requires i < |syncs| && (syncs[i].phase.Starting? || syncs[i].phase.Walking? || syncs[i].phase.Linking?)
    ensures Count(syncs) >= 1 + Count(syncs[..i]) && CountFor(syncs, syncs[i].org) >= 1 + CountFor(syncs[..i], syncs[i].org)
  {
    var n := |syncs| - 1;
    if i < n {
      CountsOne(syncs[..n], i);
      assert syncs[..n][..i] == syncs[..i];
    } else {
      assert syncs[..i] == syncs[..n];
    }
  }

  predicate Over(p: Phase) {
    p.Ended? || p.Lost?
  }

  lemma TwoCount(syncs: seq<Sync>, i: nat, j: nat)
    requires i < j < |syncs| && !Over(syncs[i].phase) && !Over(syncs[j].phase)
    ensures Count(syncs) >= 2 && (syncs[i].org == syncs[j].org ==> CountFor(syncs, syncs[i].org) >= 2)
  {
    CountsOne(syncs, j);
    CountsOne(syncs[..j], i);
    assert syncs[..j][i] == syncs[i];
  }

  lemma ThreeCount(syncs: seq<Sync>, i: nat, j: nat, k: nat)
    requires i < j < k < |syncs| && !Over(syncs[i].phase) && !Over(syncs[j].phase) && !Over(syncs[k].phase)
    ensures Count(syncs) >= 3
  {
    CountsOne(syncs, k);
    TwoCount(syncs[..k], i, j);
  }

  /** Of three syncs one is over; and of two of one tenant, at the limit the app sets, one is. */
  lemma NeverThreeInFlight(x: Setting, events: seq<Event>, i: nat, j: nat, k: nat)
    requires i < j < |Run(x, events).syncs| && j < k
    ensures var syncs := Run(x, events).syncs;
            (k < |syncs| ==> Over(syncs[i].phase) || Over(syncs[j].phase) || Over(syncs[k].phase)) &&
            (x.perOrg == 1 && syncs[i].org == syncs[j].org ==> Over(syncs[i].phase) || Over(syncs[j].phase))
  {
    EveryRunIsAdmitted(x, events);
    var syncs := Run(x, events).syncs;
    if !Over(syncs[i].phase) && !Over(syncs[j].phase) {
      TwoCount(syncs, i, j);
      if k < |syncs| && !Over(syncs[k].phase) { ThreeCount(syncs, i, j, k); }
    }
  }

  lemma {:induction false} NoneInFlight(syncs: seq<Sync>, org: nat, i: nat)
    requires CountFor(syncs, org) == 0 && i < |syncs| && syncs[i].org == org
    ensures !InFlight(syncs[i].phase)
  {
    var n := |syncs| - 1;
    if i < n { NoneInFlight(syncs[..n], org, i); }
  }

  // -------------------------------------------------------------------------
  // One case for each invoice
  // -------------------------------------------------------------------------

  predicate OnePerOrg(syncs: seq<Sync>) {
    forall i, j :: 0 <= i < j < |syncs| && syncs[i].org == syncs[j].org ==>
      !InFlight(syncs[i].phase) || !InFlight(syncs[j].phase)
  }

  /** A case not linked is one its sync is about to link, or died before linking. */
  predicate RowInv(syncs: seq<Sync>, row: CaseRow, k: nat) {
    row.opener < |syncs| && syncs[row.opener].org == row.org &&
    (!row.linked ==>
      var p := syncs[row.opener].phase;
      (p.Linking? && p.row == k) || (p.Lost? && p.row == k))
  }

  /** A sync under way knows every linked case of its tenant, or linked it itself. */
  predicate SyncInv(cases: seq<CaseRow>, sync: Sync, i: nat) {
    var p := sync.phase;
    (p.Linking? || p.Lost? ==> p.row < |cases| && cases[p.row].opener == i && !cases[p.row].linked && cases[p.row].org == sync.org) &&
    (p.Walking? || p.Linking? ==>
      forall k :: 0 <= k < |cases| && cases[k].org == sync.org && cases[k].linked ==> cases[k].invoice in p.known + p.tried) &&
    (p.Linking? ==> cases[p.row].invoice !in p.known + p.tried)
  }

  predicate LinkedOnce(cases: seq<CaseRow>) {
    forall k, l :: 0 <= k < l < |cases| && cases[k].org == cases[l].org && cases[k].invoice == cases[l].invoice ==>
      !cases[k].linked || !cases[l].linked
  }

  predicate Inv(s: State) {
    OnePerOrg(s.syncs) && LinkedOnce(s.cases) &&
    (forall k: nat | k < |s.cases| :: RowInv(s.syncs, s.cases[k], k)) &&
    (forall i: nat | i < |s.syncs| :: SyncInv(s.cases, s.syncs[i], i))
  }

  lemma BeginKept(x: Setting, s: State, org: nat)
    requires Inv(s) && Admitted(x, s.syncs) && x.perOrg == 1
    ensures Inv(Step(x, s, Begin(org)))
  {
    var t := Step(x, s, Begin(org));
    if t != s {
      forall i: nat | i < |s.syncs| && s.syncs[i].org == org ensures !InFlight(s.syncs[i].phase) {
        NoneInFlight(s.syncs, org, i);
      }
      forall k: nat | k < |t.cases| ensures RowInv(t.syncs, t.cases[k], k) { assert RowInv(s.syncs, s.cases[k], k); }
      forall i: nat | i < |t.syncs| ensures SyncInv(t.cases, t.syncs[i], i) {
        if i < |s.syncs| { assert SyncInv(s.cases, s.syncs[i], i); }
      }
    }
  }

  lemma ConsiderKept(s: State, i: nat, invoice: nat, sameExtract: bool)
    requires Inv(s) && Is(s, i) && s.syncs[i].phase.Walking?
    ensures Inv(ConsiderStep(s, i, invoice, sameExtract))
  {
    var t := ConsiderStep(s, i, invoice, sameExtract);
    assert SyncInv(s.cases, s.syncs[i], i);
    forall k: nat | k < |t.cases| ensures RowInv(t.syncs, t.cases[k], k) {
      if k < |s.cases| { assert RowInv(s.syncs, s.cases[k], k); }
    }
    forall j: nat | j < |t.syncs| ensures SyncInv(t.cases, t.syncs[j], j) { assert SyncInv(s.cases, s.syncs[j], j); }
  }

  lemma LinkKept(s: State, i: nat)
    requires Inv(s) && Is(s, i) && s.syncs[i].phase.Linking? && s.syncs[i].phase.row < |s.cases|
    ensures Inv(LinkStep(s, i))
  {
    var t := LinkStep(s, i);
    assert SyncInv(s.cases, s.syncs[i], i);
    forall k: nat | k < |t.cases| ensures RowInv(t.syncs, t.cases[k], k) { assert RowInv(s.syncs, s.cases[k], k); }
    forall j: nat | j < |t.syncs| ensures SyncInv(t.cases, t.syncs[j], j) { assert SyncInv(s.cases, s.syncs[j], j); }
  }

  lemma RestKept(x: Setting, s: State, e: Event)
    requires Inv(s) && (e.ReadKnown? || e.End? || e.Die?)
    ensures Inv(Step(x, s, e))
  {
    var t := Step(x, s, e);
    forall k: nat | k < |t.cases| ensures RowInv(t.syncs, t.cases[k], k) { assert RowInv(s.syncs, s.cases[k], k); }
    forall j: nat | j < |t.syncs| ensures SyncInv(t.cases, t.syncs[j], j) {
      assert SyncInv(s.cases, s.syncs[j], j);
      if e.ReadKnown? && j == e.i && t.syncs[j].phase.Walking? && s.syncs[j].phase.Starting? {
        forall k | 0 <= k < |t.cases| && t.cases[k].org == t.syncs[j].org && t.cases[k].linked
          ensures t.cases[k].invoice in t.syncs[j].phase.known
        {
        }
      }
    }
  }

  lemma {:induction false} EveryRunKeeps(x: Setting, events: seq<Event>)
    requires x.perOrg == SYNCS_IN_FLIGHT_PER_ORG
    ensures Inv(Run(x, events))
  {
    if events != [] {
      var s := Run(x, events[..|events| - 1]);
      var e := events[|events| - 1];
      EveryRunKeeps(x, events[..|events| - 1]);
      EveryRunIsAdmitted(x, events[..|events| - 1]);
      match e
      case Begin(org) => BeginKept(x, s, org);
      case Consider(i, invoice, sameExtract) => if Is(s, i) && s.syncs[i].phase.Walking? { ConsiderKept(s, i, invoice, sameExtract); }
      case LinkCase(i) => if Is(s, i) && s.syncs[i].phase.Linking? && s.syncs[i].phase.row < |s.cases| { LinkKept(s, i); }
      case _ => RestKept(x, s, e);
    }
  }

  predicate SameInvoice(cases: seq<CaseRow>, k: nat, l: nat) {
    k < |cases| && l < |cases| && k != l && cases[k].org == cases[l].org && cases[k].invoice == cases[l].invoice
  }

  /**
   With the tenant's limit at one, two cases syncs opened for one invoice are one case and the
   leavings of a sync that died between opening its case and linking it: of the two at most one is
   linked, and the sync of one of them was lost there.
   */
  lemma SecondCaseIsALostSync(x: Setting, events: seq<Event>, k: nat, l: nat)
    requires x.perOrg == SYNCS_IN_FLIGHT_PER_ORG && SameInvoice(Run(x, events).cases, k, l)
    ensures var s := Run(x, events);
            (!s.cases[k].linked && s.cases[k].opener < |s.syncs| && s.syncs[s.cases[k].opener].phase == Lost(k)) ||
            (!s.cases[l].linked && s.cases[l].opener < |s.syncs| && s.syncs[s.cases[l].opener].phase == Lost(l))
  {
    EveryRunKeeps(x, events);
    var s := Run(x, events);
    assert RowInv(s.syncs, s.cases[k], k) && RowInv(s.syncs, s.cases[l], l);
    assert SyncInv(s.cases, s.syncs[s.cases[k].opener], s.cases[k].opener) && SyncInv(s.cases, s.syncs[s.cases[l].opener], s.cases[l].opener);
  }

  lemma {:induction false} NoneLost(x: Setting, events: seq<Event>, i: nat)
    requires !x.diesBetween && i < |Run(x, events).syncs|
    ensures !Run(x, events).syncs[i].phase.Lost?
  {
    if events != [] && i < |Run(x, events[..|events| - 1]).syncs| {
      NoneLost(x, events[..|events| - 1], i);
    }
  }

  predicate OneCaseEach(cases: seq<CaseRow>) {
    forall k: nat, l: nat | k < |cases| && l < |cases| :: !SameInvoice(cases, k, l)
  }

  // -------------------------------------------------------------------------
  // What the limit and the one transaction are for
  // -------------------------------------------------------------------------

  lemma {:induction false} RunThrough(x: Setting, events: seq<Event>, states: seq<State>)
    requires |states| == |events| + 1 && states[0] == Init()
    requires forall k: nat | k < |events| :: Step(x, states[k], events[k]) == states[k + 1]
    ensures Run(x, events) == states[|events|]
  {
    if events != [] {
      RunThrough(x, events[..|events| - 1], states[..|states| - 1]);
    }
  }

  lemma Counts(a: Sync)
    ensures Count([]) == 0 && Count([a]) == if InFlight(a.phase) then 1 else 0
    ensures forall org :: CountFor([a], org) == if InFlight(a.phase) && a.org == org then 1 else 0
  {
    assert [a][..0] == [];
  }

  /** Two syncs of one tenant read what is known before either has linked anything. */
  lemma TwoSyncsTwoCases(x: Setting)
    requires x.perOrg > 1
    ensures exists events :: !OneCaseEach(Run(x, events).cases)
  {
    var events := [Begin(3), Begin(3), ReadKnown(0), ReadKnown(1), Consider(0, 7, false), Consider(1, 7, false)];
    var (a, w) := (Sync(3, Starting), Sync(3, Walking({}, {})));
    Counts(a);
    var s2 := State([a, a], []);
    var s4 := State([w, w], []);
    var s5 := State([Sync(3, Linking(0, {}, {})), w], [CaseRow(3, 7, false, 0)]);
    var s6 := State([Sync(3, Linking(0, {}, {})), Sync(3, Linking(1, {}, {}))], [CaseRow(3, 7, false, 0), CaseRow(3, 7, false, 1)]);
    assert Known([], 3) == {};
    RunThrough(x, events, [Init(), State([a], []), s2, State([w, a], []), s4, s5, s6]);
    assert SameInvoice(s6.cases, 0, 1);
  }

  /** A sync dies between opening its case and linking it; the next knows nothing of the invoice. */
  lemma LostSyncTwoCases(x: Setting)
    requires x.perOrg == 1 && x.diesBetween
    ensures exists events :: !OneCaseEach(Run(x, events).cases)
  {
    var events := [Begin(3), ReadKnown(0), Consider(0, 7, true), Die(0), Begin(3), ReadKnown(1), Consider(1, 7, true)];
    var (a, w, lost) := (Sync(3, Starting), Sync(3, Walking({}, {})), Sync(3, Lost(0)));
    Counts(lost);
    Counts(a);
    var orphan := [CaseRow(3, 7, false, 0)];
    var s7 := State([lost, Sync(3, Linking(1, {}, {}))], orphan + [CaseRow(3, 7, false, 1)]);
    assert Known([], 3) == {} && Known(orphan, 3) == {};
    RunThrough(x, events, [Init(), State([a], []), State([w], []), State([Sync(3, Linking(0, {}, {}))], orphan),
                           State([lost], orphan), State([lost, a], orphan), State([lost, w], orphan), s7]);
    assert SameInvoice(s7.cases, 0, 1);
  }

  /** No invoice gets two cases from syncs exactly when a tenant has one sync at a time and none dies in that gap. */
  lemma OneCaseEachExactly(x: Setting)
    requires x.perOrg >= 1
    ensures (forall events :: OneCaseEach(Run(x, events).cases)) <==> x.perOrg == 1 && !x.diesBetween
  {
    if x.perOrg > 1 {
      TwoSyncsTwoCases(x);
    } else if x.diesBetween {
      LostSyncTwoCases(x);
    } else {
      forall events ensures OneCaseEach(Run(x, events).cases) {
        var s := Run(x, events);
        forall k: nat, l: nat | k < |s.cases| && l < |s.cases| ensures !SameInvoice(s.cases, k, l) {
          NoSecondCase(x, events, k, l);
        }
      }
    }
  }

  lemma NoSecondCase(x: Setting, events: seq<Event>, k: nat, l: nat)
    requires x.perOrg == 1 && !x.diesBetween
    ensures !SameInvoice(Run(x, events).cases, k, l)
  {
    var s := Run(x, events);
    if SameInvoice(s.cases, k, l) {
      SecondCaseIsALostSync(x, events, k, l);
      if s.cases[k].opener < |s.syncs| { NoneLost(x, events, s.cases[k].opener); }
      if s.cases[l].opener < |s.syncs| { NoneLost(x, events, s.cases[l].opener); }
    }
  }
}
