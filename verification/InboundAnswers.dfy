/** Every ending of one uninterrupted delivery, by what is answered to it: what it leaves durable and what it answers. */
module InboundAnswers {
  import opened InboundDoor
  import opened InboundHandler

  /** What is answered before the claim is the delivery's answer. */
  lemma AnsweredBeforeClaim(door: Door, free: bool, r: Replies)
    ensures UpToClaim(door, r).d.at.AtAnswer? ==> Whole(door, free, r) == UpToClaim(door, r)
  {
    var x := UpToClaim(door, r);
    if x.d.at.AtAnswer? { UnderClaimDecides(x, r); }
  }

  /** A delivery whose lookup fails, or finds no such address: nothing is written. */
  lemma UnknownEndings(door: Door, free: bool, r: Replies)
    requires !r.lookedUp || door.address.Unissued?
    ensures Whole(door, free, r).door == door
    ensures Whole(door, free, r).d.at == AtAnswer(if r.lookedUp then Refused403 else TryAgain503)
  {
  }

  /**
   At a retired address: the refusal is written once and only if its retirer may still write; one who
   may not is refused all the same, with nothing written.
   */
  lemma RetiredEndings(door: Door, r: Replies)
    requires r.lookedUp && door.address.Retired? && door.design.indexed
    ensures var (x, wrote) := (UpToClaim(door, r), door.(refused := door.refused + [door.nextId], nextId := door.nextId + 1));
            if !r.refuserAsked then x.door == door && x.d.at == AtAnswer(TryAgain503)
            else if !r.refuserMayWrite || door.refused != [] then x.door == door && x.d.at == AtAnswer(Refused403)
            else if r.refusal == Failed then x.door == door && x.d.at == AtAnswer(TryAgain503)
            else if r.refusal == DoneButLost then x.door == wrote && x.d.at == AtAnswer(TryAgain503)
            else x.door == wrote && x.d.at == AtAnswer(Refused403)
  {
  }

  /** At a live address, up to the claim: only a member who may write goes on, and only where the claim is free. */
  lemma LiveGoesOn(door: Door, free: bool, r: Replies)
    requires r.lookedUp && door.address.Live?
    ensures if r.memberAsked && r.memberMayWrite && free && r.connected then
              TakeClaim(UpToClaim(door, r), free && r.connected) == Effect(door, Delivery(AtExisting, Some(Live), None))
            else Whole(door, free, r).door == door && Whole(door, free, r).d.at == AtAnswer(TryAgain503)
  {
  }

  /** Under the claim: the row there is answers; else one is written, where its inputs can be had. */
  lemma ClaimedEndings(door: Door, r: Replies)
    requires door.address.Live? && door.design.indexed
    ensures var x := UnderClaim(Effect(door, Delivery(AtExisting, Some(Live), None)), r);
            var wrote := door.(received := door.received + [door.nextId], nextId := door.nextId + 1);
            var tryAgain := x.d.at == AtAnswer(TryAgain503);
            if !r.existing then x.door == door && tryAgain
            else if door.received != [] then
              x.door == door && if r.committed then x.d == Delivery(AtSend, Some(Live), Some(door.received[0])) else tryAgain
            else if !r.ingested || !r.selected || r.record == Failed then x.door == door && tryAgain
            else if r.record == DoneButLost then x.door == wrote && tryAgain
            else x.door == wrote && if r.committed then x.d == Delivery(AtSend, Some(Live), Some(door.nextId)) else tryAgain
  {
  }

  /** The send: the row's id is queued as the read's key, and only a send that returned is acknowledged. */
  lemma SendEndings(door: Door, id: nat, r: Replies)
    requires door.design.keyIsRow
    ensures var x := Advance(Effect(door, Delivery(AtSend, Some(Live), Some(id))), Send(0, r.send));
            x.door == (if r.send == Failed then door else door.(queued := door.queued + [id], nextId := door.nextId + 1)) &&
            x.d.at == AtAnswer(if r.send == Fine then Ok200 else TryAgain503)
  {
  }

  // -------------------------------------------------------------------------
  // Among other deliveries
  // -------------------------------------------------------------------------

  /** An address is issued once and retired once; a delivery arrives knowing nothing. */
  lemma AddressLeads(s: State)
    ensures Step(s, Issue) == if s.door.address == Unissued then s.(door := s.door.(address := Live)) else s
    ensures Step(s, Retire) == if s.door.address == Live then s.(door := s.door.(address := Retired)) else s
    ensures Step(s, Arrive) == s.(deliveries := s.deliveries + [Delivery(AtLookup, None, None)])
  {
  }

  /** One delivery at a time holds the message's claim; another that finds it held, or cannot ask, is to try again. */
  lemma ClaimLeads(s: State, i: nat, connected: bool)
    requires i < |s.deliveries| && s.deliveries[i].at == AtClaim && s.door.design.claims
    ensures var (d, taken) := (s.deliveries[i], connected && s.claim == None);
            Step(s, Claim(i, connected)) ==
            s.(claim := if taken then Some(i) else s.claim,
               deliveries := s.deliveries[i := Delivery(if taken then AtExisting else AtAnswer(TryAgain503), d.saw, d.message)])
  {
  }

  /** The claim is let go by whoever holds it as it leaves it, and by nobody else. */
  lemma ClaimIsLetGo(s: State, e: Event)
    requires DeliveryEvent(e) && e.i < |s.deliveries| && InTurn(s.deliveries[e.i], e)
    ensures var t := Step(s, e);
            var at := t.deliveries[e.i].at;
            var within := at == AtExisting || at == AtIngest || at == AtSelect || at == AtInsert || at == AtCommit;
            t.claim == if s.claim == Some(e.i) && !within then None else s.claim
  {
  }

  /** The row there is answers the look under the claim, and the one before the insert, which a retired address refuses. */
  lemma LooksLead(door: Door, d: Delivery, ok: bool)
    ensures d.at == AtExisting ==>
              Act(door, d, Existing(0, ok)) == Effect(door,
                if !ok then d.(at := AtAnswer(TryAgain503))
                else if door.received == [] then d.(at := AtIngest)
                else Delivery(AtCommit, d.saw, Some(door.received[0])))
    ensures d.at == AtSelect ==>
              Act(door, d, Select(0, ok)) == Effect(door,
                if !ok || door.address == Retired then d.(at := AtAnswer(TryAgain503))
                else if door.received == [] then d.(at := AtInsert)
                else Delivery(AtCommit, d.saw, Some(door.received[0])))
  {
  }

  /** An insert writes a row of its own, unless it fails or the index has one already. */
  lemma InsertsLead(door: Door, d: Delivery, reply: Reply)
    requires door.design.indexed
    ensures d.at == AtInsert ==>
              Act(door, d, Insert(0, reply)) ==
              if reply == Failed || door.received != [] then Effect(door, d.(at := AtAnswer(TryAgain503)))
              else Effect(door.(received := [door.nextId], nextId := door.nextId + 1),
                          Delivery(if reply == Fine then AtCommit else AtAnswer(TryAgain503), d.saw, Some(door.nextId)))
    ensures d.at == AtRefuseInsert ==>
              Act(door, d, RefuseInsert(0, reply)) ==
              if reply == Failed || door.refused != [] then Effect(door, d.(at := AtAnswer(TryAgain503)))
              else Effect(door.(refused := [door.nextId], nextId := door.nextId + 1),
                          d.(at := if reply == Fine then AtAnswer(Refused403) else AtAnswer(TryAgain503)))
  {
  }

  /** An answer decided goes out as it is; a death answers nothing and writes nothing. */
  lemma EndsLead(door: Door, d: Delivery)
    ensures d.at.AtAnswer? ==> Act(door, d, Answer(0)) == Effect(door, d.(at := Answered(d.at.status)))
    ensures !d.at.Answered? && !d.at.Gone? ==> Act(door, d, Die(0)) == Effect(door, d.(at := Gone))
  {
  }

  /** A read starts for a key that is queued and not in the window; a key in the window leaves it when it expires. */
  lemma ReadsLead(s: State, k: nat)
    ensures Step(s, StartRead(k)) ==
            if k in s.door.queued && k !in s.window then s.(window := s.window + {k}, runs := s.runs + [k]) else s
    ensures Step(s, ExpireKey(k)) == if k in s.window then s.(window := s.window - {k}, expired := s.expired + [k]) else s
  {
  }
}
