/** When each act on a case writes: by the user's role, the case's stage and its rows. */
module CaseRules {
  import opened CaseWorkflow

  predicate Writes(who: Actor) {
    who.role == Some(Owner) || who.role == Some(Approver) || who.role == Some(Analyst)
  }

  predicate Approves(who: Actor) {
    who.role == Some(Owner) || who.role == Some(Approver)
  }

  /** None of these is later than the one at `p`, nor as late with a higher id. */
  predicate IsNewest(packets: seq<Packet>, p: nat) {
    p < |packets| &&
    forall j :: 0 <= j < |packets| ==>
      packets[j].at < packets[p].at || (packets[j].at == packets[p].at && packets[j].id <= packets[p].id)
  }

  lemma DecideWhen(c: Case, who: Actor, wellFormed: bool)
    requires CaseInv(c)
    ensures DecideAct(c, who, wellFormed) != c <==> Writes(who) && c.stage == Classified && c.declines == 0 && wellFormed
  {
  }

  /** Contents that are new, before anything is approved. */
  lemma AssembleWhen(c: Case, k: nat, who: Actor, packet: Packet, buildable: bool)
    requires CaseInv(c)
    ensures AssembleAct(c, k, who, packet, buildable) != c <==>
            Writes(who) && buildable && k == 0 && c.decisions != [] && c.decisions[0].approvals == [] &&
            (c.stage == AnalystReview || c.stage == AwaitingApproval) &&
            forall j :: 0 <= j < |c.decisions[0].packets| ==>
              c.decisions[0].packets[j].hash != packet.hash && c.decisions[0].packets[j].id != packet.id
  {
    if c.decisions != [] {
      assert c.decisions[0] in c.decisions;
      var d := c.decisions[0];
      assert |d.packets + [packet]| != |d.packets|;
    }
  }

  lemma NewestIsLatest(packets: seq<Packet>, p: nat)
    requires p < |packets| && forall i, j :: 0 <= i < j < |packets| ==> packets[i].id != packets[j].id
    ensures p == Latest(packets) <==> IsNewest(packets, p)
  {
    var k := Latest(packets);
    assert p == k || packets[p] != packets[k];
  }

  /** The newest packet of a decision that awaits its approval, by another than who prepared it. */
  lemma ApproveWhen(c: Case, k: nat, p: nat, who: Actor)
    requires CaseInv(c)
    ensures ApproveAct(c, k, p, who) != c <==>
            Approves(who) && k == 0 && c.decisions != [] && IsNewest(c.decisions[0].packets, p) &&
            c.stage == AwaitingApproval && c.decisions[0].approvals == [] && c.decisions[0].preparer != who.user
  {
    if c.decisions != [] {
      var d := c.decisions[0];
      assert d in c.decisions;
      if p < |d.packets| { NewestIsLatest(d.packets, p); }
    }
  }

  /** The packet that was approved, confirmed and not filed yet. */
  lemma FileWhen(c: Case, k: nat, p: nat, who: Actor, channel: nat, confirmed: bool)
    requires CaseInv(c)
    ensures FileAct(c, k, p, who, channel, confirmed) != c <==>
            Writes(who) && k == 0 && c.decisions != [] && p < |c.decisions[0].packets| && c.stage == AwaitingApproval && confirmed &&
            c.decisions[0].approvals != [] && c.decisions[0].approvals[0].hash == c.decisions[0].packets[p].hash
  {
    if c.decisions != [] { assert c.decisions[0] in c.decisions; }
  }

  /** All of the amount for a win, none for a loss, something between for a part. */
  lemma OutcomeWhen(c: Case, who: Actor, outcome: Outcome, cents: int)
    requires CaseInv(c)
    ensures OutcomeAct(c, who, outcome, cents) != c <==>
            Writes(who) && c.stage == Submitted &&
            match outcome case Won => cents == c.amount case Partial => 0 < cents < c.amount case Lost => cents == 0
  {
  }

  lemma DeclineWhen(c: Case, who: Actor, provenanceKnown: bool)
    requires CaseInv(c)
    ensures DeclineAct(c, who, provenanceKnown) ==
            if Writes(who) && c.decisions == [] && c.declines == 0 && provenanceKnown && (c.stage == Discovered || c.stage == Classified)
            then c.(declines := 1) else c
  {
  }

  predicate NotFiled(at: Stage) {
    at == Discovered || at == Classified || at == AnalystReview || at == AwaitingApproval
  }

  /** A case not filed yet may be merged away, and put back where it was; an owner or an approver may remove it. */
  lemma MovesWhen(c: Case, who: Actor, allowed: bool)
    ensures MergeAct(c, who, allowed) == if Writes(who) && allowed && NotFiled(c.stage) then c.(stage := Merged(c.stage)) else c
    ensures UnmergeAct(c, who) == if Writes(who) && c.stage.Merged? then c.(stage := c.stage.before) else c
    ensures RemoveAct(c, who) == if Approves(who) && NotFiled(c.stage) then c.(stage := Removed(c.stage)) else c
  {
  }

  /** What each form acts on: its own case, as its own user, if the case is there. */
  lemma FormsActOn(s: State, e: Event)
    requires OnCase(e) && !e.Classify?
    ensures var who := Actor(e.user, if e.user in s.roles then Some(s.roles[e.user]) else None);
            e.c in s.cases ==>
              Step(s, e).cases == s.cases[e.c :=
                match e
                case Decide(_, _, wellFormed) => DecideAct(s.cases[e.c], who, wellFormed)
                case Assemble(_, k, _, packet, buildable) => AssembleAct(s.cases[e.c], k, who, packet, buildable)
                case Approve(_, k, p, _) => ApproveAct(s.cases[e.c], k, p, who)
                case File(_, k, p, _, channel, confirmed) => FileAct(s.cases[e.c], k, p, who, channel, confirmed)
                case RecordOutcome(_, _, outcome, cents) => OutcomeAct(s.cases[e.c], who, outcome, cents)
                case Decline(_, _, known) => DeclineAct(s.cases[e.c], who, known)
                case Merge(_, _, allowed) => MergeAct(s.cases[e.c], who, allowed)
                case Unmerge(_, _) => UnmergeAct(s.cases[e.c], who)
                case Remove(_, _) => RemoveAct(s.cases[e.c], who)]
    ensures e.c !in s.cases ==> Step(s, e) == s
  {
  }

  /** The system opens a case once, and classifies it as soon as it can. */
  lemma OpeningActs(s: State, c: nat, amount: nat)
    ensures Step(s, OpenCase(c, amount)) == if c in s.cases then s else s.(cases := s.cases[c := Case(Discovered, amount, [], 0, [])])
    ensures c in s.cases ==>
              Step(s, Classify(c)).cases[c] == if s.cases[c].stage == Discovered then s.cases[c].(stage := Classified) else s.cases[c]
  {
  }

  // -------------------------------------------------------------------------
  // What the page shows
  // -------------------------------------------------------------------------

  /** The page shows the case's decision, and of it the packet that was approved, or else the newest. */
  lemma ViewExactly(c: Case)
    requires CaseInv(c)
    ensures var v := ViewOf(c);
            if c.decisions == [] then v == View(None, None, false, false)
            else
              var d := c.decisions[0];
              v.decision == Some(0) && (v.approved <==> d.approvals != []) && (v.filed <==> d.filings != []) &&
              (v.packet == None <==> d.packets == []) &&
              (d.packets != [] ==>
                IsNewest(d.packets, v.packet.value) && (d.approvals != [] ==> d.packets[v.packet.value].hash == d.approvals[0].hash))
  {
    if c.decisions != [] {
      var d := c.decisions[0];
      assert d in c.decisions;
      if d.packets != [] { NewestIsLatest(d.packets, Latest(d.packets)); }
      if d.approvals != [] { ApprovedPacketFound(d.packets, d.approvals[0].hash, Latest(d.packets)); }
    }
  }

  /** When each of the page's six acts is offered, by the viewer's role, the stage and the rows. */
  lemma OffersExactly(c: Case, viewer: Actor)
    requires CaseInv(c)
    ensures OffersDecide(c, viewer) <==> Writes(viewer) && c.stage == Classified && c.declines == 0
    ensures OffersDecline(c, viewer) <==> Writes(viewer) && c.stage == Classified && c.declines == 0
    ensures OffersAssemble(c, viewer) <==>
              Writes(viewer) && (c.stage == AnalystReview || (c.stage == AwaitingApproval && c.decisions[0].approvals == []))
    ensures OffersApprove(c, viewer) <==>
              Approves(viewer) && c.stage == AwaitingApproval && c.decisions[0].approvals == [] && c.decisions[0].preparer != viewer.user
    ensures OffersFile(c, viewer) <==> Writes(viewer) && c.stage == AwaitingApproval && c.decisions[0].approvals != []
    ensures OffersOutcome(c, viewer) <==> Writes(viewer) && c.stage == Submitted
  {
    ViewExactly(c);
    if c.decisions != [] { assert c.decisions[0] in c.decisions; }
  }
}
