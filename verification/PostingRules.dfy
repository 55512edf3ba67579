/** The requests, retries and voids around the posting job, each by what it finds, with every reason by its name. */
module PostingRules {
  import opened Posting

  /** The reasons that say an attempt sent nothing. */
  predicate SaysNothingSent(r: Reason) {
    r == NoInvoice || r == InvoiceNotFound || r == InvoiceLookupFailed || r == BuildFailed || r == LinesChanged
  }

  /** Attempts, at least one, that all say so. */
  predicate AllSayNothingSent(attempts: seq<Reason>) {
    |attempts| > 0 && forall k :: 0 <= k < |attempts| ==> SaysNothingSent(attempts[k])
  }

  /** A row is written once, pending and with no attempts. */
  lemma InsertLeads(s: State, w: WritebackId)
    ensures Step(s, InsertRow(w)) == if w in s.rows.Keys then s else s.(rows := s.rows[w := Row(Pending, [])])
  {
  }

  /** An approval queues its journal entry under the row's own key; nothing queues a Payment by itself. */
  lemma FirstRequestLeads(s: State, w: WritebackId)
    ensures Step(s, QueueFirst(w)) ==
            if w in s.rows.Keys && w.kind == JournalEntry then s.(queue := s.queue + {Request(w, First(w), false)}) else s
  {
  }

  /** A person's retry of a row not posted and not voided makes it pending again, and asks for it under a key of its own. */
  lemma RetryLeads(s: State, w: WritebackId, queued: bool)
    ensures var t := Step(s, PressRetry(w, queued));
            if w !in s.rows.Keys || s.rows[w].status == Succeeded || w.decision in s.voided then t == s
            else
              t.rows == s.rows[w := Row(Pending, s.rows[w].attempts)] &&
              t == (if queued then
                s.(rows := t.rows, queue := s.queue + {Request(w, Fresh(s.nextFresh), true)}, nextFresh := s.nextFresh + 1)
              else s.(rows := t.rows))
  {
  }

  /** One job at a time, and one for each key in the window. */
  lemma DeliveryLeads(s: State, r: Request, key: Key)
    ensures Step(s, Deliver(r)) ==
            if s.job == Idle && r in s.queue && r.key !in s.window
            then s.(window := s.window + {r.key}, job := Running(r.w, r.retry, AtLoad, false)) else s
    ensures Step(s, Expire(key)) == s.(window := s.window - {key})
    ensures Step(s, Die) == s.(job := Idle)
  {
  }

  lemma InBooks(sends: seq<SendMade>, w: WritebackId)
    ensures Holds(sends, w) <==> exists k: nat | k < |sends| :: sends[k].w == w && sends[k].fate == Landed
  {
    assert forall k: nat :: LandedFor(sends, k, w) <==> k < |sends| && sends[k].w == w && sends[k].fate == Landed;
  }

  /** A send under way lands, unless the ledger knows the row's request id already. */
  lemma LandingLeads(s: State, i: nat)
    requires i < |s.sends| && s.sends[i].fate == InFlight
    ensures var w := s.sends[i].w;
            var there := exists k: nat | k < |s.sends| :: s.sends[k].w == w && s.sends[k].fate == Landed;
            Step(s, LateLanding(i)) ==
            s.(sends := s.sends[i := SendMade(w, if s.dedupes && there then Merged else Landed, s.sends[i].recorded)])
  {
    InBooks(s.sends, s.sends[i].w);
  }

  // -------------------------------------------------------------------------
  // Voids
  // -------------------------------------------------------------------------

  /**
   What the store asks of its own rows: the settlement is not voided, no row of it posted, its journal
   entry failed with attempts that all say nothing was sent, and any other row's attempts say so too.
   */
  predicate MayVoid(s: State, d: nat) {
    var entry := WritebackId(d, JournalEntry);
    var payment := WritebackId(d, PaymentApplication);
    d !in s.voided && entry in s.rows.Keys && s.rows[entry].status == Failed && AllSayNothingSent(s.rows[entry].attempts) &&
    (payment in s.rows.Keys ==>
      s.rows[payment].status != Succeeded && (s.rows[payment].attempts == [] || AllSayNothingSent(s.rows[payment].attempts)))
  }

  lemma ReasonsByName(attempts: seq<Reason>)
    ensures NothingWasSent(attempts) <==> AllSayNothingSent(attempts)
  {
    assert forall k :: 0 <= k < |attempts| ==> (IsNothingSent(attempts[k]) <==> SaysNothingSent(attempts[k]));
  }

  lemma OneOfTwo(w: WritebackId)
    ensures w == WritebackId(w.decision, JournalEntry) || w == WritebackId(w.decision, PaymentApplication)
  {
    match w.kind
    case JournalEntry => assert w == WritebackId(w.decision, JournalEntry);
    case PaymentApplication => assert w == WritebackId(w.decision, PaymentApplication);
  }

  lemma VoidCheckExactly(s: State, d: nat)
    ensures VoidCheck(s, d) <==> MayVoid(s, d)
  {
    forall w | w in s.rows.Keys ensures NothingWasSent(s.rows[w].attempts) <==> AllSayNothingSent(s.rows[w].attempts) {
      ReasonsByName(s.rows[w].attempts);
    }
    forall w: WritebackId ensures w == WritebackId(w.decision, JournalEntry) || w == WritebackId(w.decision, PaymentApplication) {
      OneOfTwo(w);
    }
  }

  lemma NoneInBooks(s: State, d: nat)
    ensures (forall w :: w in RowsOf(s, d) ==> !Holds(s.sends, w)) <==>
            forall i: nat | i < |s.sends| :: s.sends[i].fate == Landed && s.sends[i].w.decision == d ==> s.sends[i].w !in s.rows.Keys
  {
    forall w | w in RowsOf(s, d)
      ensures Holds(s.sends, w) <==> exists k: nat | k < |s.sends| :: s.sends[k].w == w && s.sends[k].fate == Landed
    {
      InBooks(s.sends, w);
    }
    forall i: nat | i < |s.sends| && s.sends[i].w.decision == d ensures s.sends[i].w in s.rows.Keys <==> s.sends[i].w in RowsOf(s, d) {}
  }

  /** The ledger is asked exactly then, and answers that it holds nothing exactly where no entry of either row is in the books. */
  lemma AskLeads(s: State, d: nat)
    ensures var entry := WritebackId(d, JournalEntry);
            var rows := set w | w in s.rows.Keys && w.decision == d;
            var none := forall i: nat | i < |s.sends| :: s.sends[i].fate == Landed && s.sends[i].w.decision == d ==> s.sends[i].w !in s.rows.Keys;
            var inFlight := set i: nat | i < |s.sends| && s.sends[i].fate == InFlight;
            Step(s, AskLedger(d)) ==
            if MayVoid(s, d) && none then s.(asked := s.asked + {Asked(d, rows, |s.sends|, inFlight, s.rows[entry].attempts)}) else s
  {
    VoidCheckExactly(s, d);
    assert (set w | w in s.rows.Keys && w.decision == d) == RowsOf(s, d);
    assert (set i: nat | i < |s.sends| && s.sends[i].fate == InFlight) == StillInFlight(s.sends);
    NoneInBooks(s, d);
  }

  /** A void goes through on an answer that was given, where its checks still hold and no row was added since. */
  lemma CommitLeads(s: State, a: Asked)
    ensures Step(s, CommitVoid(a)) ==
            if a in s.asked && MayVoid(s, a.decision) && a.rows == (set w | w in s.rows.Keys && w.decision == a.decision)
            then s.(voided := s.voided[a.decision := a]) else s
  {
    VoidCheckExactly(s, a.decision);
    assert (set w | w in s.rows.Keys && w.decision == a.decision) == RowsOf(s, a.decision);
  }

  /** The card offers a settlement not voided whose journal entry failed having sent nothing, with no Payment, or one that sent nothing either or was never tried. */
  lemma CardOffersExactly(s: State, d: nat)
    ensures CardVoidable(s, d) <==>
            var entry := WritebackId(d, JournalEntry);
            var payment := WritebackId(d, PaymentApplication);
            d !in s.voided && entry in s.rows.Keys && s.rows[entry].status == Failed && AllSayNothingSent(s.rows[entry].attempts) &&
            (payment in s.rows.Keys ==>
              (s.rows[payment].status == Failed && AllSayNothingSent(s.rows[payment].attempts)) ||
              s.rows[payment] == Row(Pending, []))
  {
    forall w | w in s.rows.Keys ensures NothingWasSent(s.rows[w].attempts) <==> AllSayNothingSent(s.rows[w].attempts) {
      ReasonsByName(s.rows[w].attempts);
    }
    forall w: WritebackId ensures w == WritebackId(w.decision, JournalEntry) || w == WritebackId(w.decision, PaymentApplication) {
      OneOfTwo(w);
    }
  }
}
