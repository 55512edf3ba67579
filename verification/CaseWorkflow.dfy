/**
 A case from its opening to what came back: who may decide, assemble, approve, file, record an
 outcome or decline, as the case page offers it (`CaseActions`) and as the store accepts it
 (`recordHumanDecision` to `recordOutcome`, `declineCase`), forms posted after the case moved on
 included, with merges, their undoing and removals in between.

 Every store act holds the case's row lock, so acts on one case happen one after another. Ids in a
 form are whatever the page carried when it was rendered.
 */
module CaseWorkflow {

  datatype Option<+T> = None | Some(value: T)

  datatype Role = Owner | Approver | Analyst | ReadOnly

  datatype Outcome = Won | Partial | Lost

  datatype Stage =
    | Discovered | Classified | AnalystReview | AwaitingApproval | Submitted | Closed(outcome: Outcome)
    | Merged(before: Stage) | Removed(before: Stage)

  /** A packet row. `at` is its transaction's start, so rows need not be inserted in its order. */
  datatype Packet = Packet(id: nat, hash: nat, at: nat)

  datatype Approval = Approval(approver: nat, hash: nat)

  datatype Filing = Filing(channel: nat, hash: nat)

  datatype Decision = Decision(preparer: nat, packets: seq<Packet>, approvals: seq<Approval>, filings: seq<Filing>)

  /** A case with the rows that name it. `outcomes` are the cents recorded as recovered. */
  datatype Case = Case(stage: Stage, amount: nat, decisions: seq<Decision>, declines: nat, outcomes: seq<nat>)

  datatype State = State(cases: map<nat, Case>, roles: map<nat, Role>)

  /** Who acts, and with what role now. */
  datatype Actor = Actor(user: nat, role: Option<Role>)

  /** `decision` and `packet` are positions on their case; a packet row names its decision. */
  datatype Event =
    | OpenCase(c: nat, amount: nat)
    | SetRole(user: nat, role: Role)
    | Classify(c: nat)
    | Decide(c: nat, user: nat, wellFormed: bool)
    | Assemble(c: nat, decision: nat, user: nat, contents: Packet, buildable: bool)
    | Approve(c: nat, decision: nat, packet: nat, user: nat)
    | File(c: nat, decision: nat, packet: nat, user: nat, channel: nat, confirmed: bool)
    | RecordOutcome(c: nat, user: nat, outcome: Outcome, cents: int)
    | Decline(c: nat, user: nat, provenanceKnown: bool)
    | Merge(c: nat, user: nat, allowed: bool)
    | Unmerge(c: nat, user: nat)
    | Remove(c: nat, user: nat)

  predicate MayWrite(role: Option<Role>) {
    role.Some? && !role.value.ReadOnly?
  }

  predicate MayApprove(role: Option<Role>) {
    role == Some(Owner) || role == Some(Approver)
  }

  // -------------------------------------------------------------------------
  // Packets
  // -------------------------------------------------------------------------

  /** `order by created_at desc, id desc`. */
  predicate Newer(a: Packet, b: Packet) {
    a.at > b.at || (a.at == b.at && a.id > b.id)
  }

  /** `latestPacket`: the position of the newest packet. */
  function Latest(packets: seq<Packet>): (k: nat)
    requires packets != []
    ensures k < |packets| && forall j :: 0 <= j < |packets| ==> packets[j] == packets[k] || !Newer(packets[j], packets[k])
  {
    if |packets| == 1 then 0
    else
      var k := Latest(packets[..|packets| - 1]);
      var n := |packets| - 1;
      assert forall j :: 0 <= j < n ==> packets[..n][j] == packets[j];
      if Newer(packets[n], packets[k]) then n else k
  }

  predicate HasHash(packets: seq<Packet>, hash: nat) {
    exists k :: 0 <= k < |packets| && packets[k].hash == hash
  }

  predicate HasId(packets: seq<Packet>, id: nat) {
    exists k :: 0 <= k < |packets| && packets[k].id == id
  }

  // -------------------------------------------------------------------------
  // The store's acts
  // -------------------------------------------------------------------------

  function PutDecision(c: Case, k: nat, d: Decision): Case
    requires k < |c.decisions|
  {
    c.(decisions := c.decisions[k := d])
  }

  /** `recordHumanDecision`. */
  function DecideAct(c: Case, who: Actor, wellFormed: bool): Case {
    if !MayWrite(who.role) || c.declines > 0 || !c.stage.Classified? || !wellFormed then c
    else c.(stage := AnalystReview, decisions := c.decisions + [Decision(who.user, [], [], [])])
  }

  /** `assemblePacket`: contents already assembled are handed back, approved contents are final. */
  function AssembleAct(c: Case, k: nat, who: Actor, packet: Packet, buildable: bool): Case {
    if !MayWrite(who.role) || k >= |c.decisions| || !buildable then c
    else
      var d := c.decisions[k];
      if HasHash(d.packets, packet.hash) || HasId(d.packets, packet.id) then c
      else if c.stage.AwaitingApproval? && d.approvals != [] then c
      else if !c.stage.AnalystReview? && !c.stage.AwaitingApproval? then c
      else PutDecision(c, k, d.(packets := d.packets + [packet])).(stage := AwaitingApproval)
  }

  /** `approve`, with the gate's and separation of duties' refusals. */
  function ApproveAct(c: Case, k: nat, p: nat, who: Actor): Case {
    if !MayApprove(who.role) || k >= |c.decisions| || p >= |c.decisions[k].packets| || !c.stage.AwaitingApproval? then c
    else
      var d := c.decisions[k];
      if p != Latest(d.packets) || d.preparer == who.user || d.approvals != [] then c
      else PutDecision(c, k, d.(approvals := [Approval(who.user, d.packets[p].hash)]))
  }

  /** `recordSubmission`. */
  function FileAct(c: Case, k: nat, p: nat, who: Actor, channel: nat, confirmed: bool): Case {
    if !MayWrite(who.role) || k >= |c.decisions| || p >= |c.decisions[k].packets| then c
    else
      var d := c.decisions[k];
      if d.approvals == [] || (exists f :: f in d.filings && f.channel == channel) || !c.stage.AwaitingApproval? then c
      else if d.approvals[0].hash != d.packets[p].hash || !confirmed then c
      else PutDecision(c, k, d.(filings := d.filings + [Filing(channel, d.packets[p].hash)])).(stage := Submitted)
  }

  /** `checkRecoveredCents`. */
  predicate CentsFit(amount: nat, outcome: Outcome, cents: int) {
    match outcome
    case Won => cents == amount
    case Partial => 0 < cents < amount
    case Lost => cents == 0
  }

  /** `recordOutcome`. */
  function OutcomeAct(c: Case, who: Actor, outcome: Outcome, cents: int): Case {
    if !MayWrite(who.role) || !c.stage.Submitted? || cents < 0 || !CentsFit(c.amount, outcome, cents) then c
    else c.(stage := Closed(outcome), outcomes := c.outcomes + [cents])
  }

  /** `declineCase`. */
  function DeclineAct(c: Case, who: Actor, provenanceKnown: bool): Case {
    if !MayWrite(who.role) || c.decisions != [] || !(c.stage.Discovered? || c.stage.Classified?) then c
    else if !provenanceKnown || c.declines > 0 then c
    else c.(declines := c.declines + 1)
  }

  /** Every stage before a filing. */
  predicate BeforeFiling(s: Stage) {
    s.Discovered? || s.Classified? || s.AnalystReview? || s.AwaitingApproval?
  }

  /** Merging this case into another, when `merge_refusal` allows it, and the undo that restores it. */
  function MergeAct(c: Case, who: Actor, allowed: bool): Case {
    if MayWrite(who.role) && allowed && BeforeFiling(c.stage) then c.(stage := Merged(c.stage)) else c
  }

  function UnmergeAct(c: Case, who: Actor): Case {
    if MayWrite(who.role) && c.stage.Merged? then c.(stage := c.stage.before) else c
  }

  /** `removeCases` on one case. */
  function RemoveAct(c: Case, who: Actor): Case {
    if MayApprove(who.role) && BeforeFiling(c.stage) then c.(stage := Removed(c.stage)) else c
  }

  predicate OnCase(e: Event) {
    !e.OpenCase? && !e.SetRole?
  }

  function Act(c: Case, who: Actor, e: Event): Case
    requires OnCase(e)
  {
    match e
    case Classify(_) => if c.stage.Discovered? then c.(stage := Classified) else c
    case Decide(_, _, wellFormed) => DecideAct(c, who, wellFormed)
    case Assemble(_, k, _, packet, buildable) => AssembleAct(c, k, who, packet, buildable)
    case Approve(_, k, p, _) => ApproveAct(c, k, p, who)
    case File(_, k, p, _, channel, confirmed) => FileAct(c, k, p, who, channel, confirmed)
    case RecordOutcome(_, _, outcome, cents) => OutcomeAct(c, who, outcome, cents)
    case Decline(_, _, provenanceKnown) => DeclineAct(c, who, provenanceKnown)
    case Merge(_, _, allowed) => MergeAct(c, who, allowed)
    case Unmerge(_, _) => UnmergeAct(c, who)
    case Remove(_, _) => RemoveAct(c, who)
  }

  function ActorOf(roles: map<nat, Role>, user: nat): Actor {
    Actor(user, if user in roles then Some(roles[user]) else None)
  }

  /** The caller is the session's user; classification is the system's own. */
  function WhoActs(roles: map<nat, Role>, e: Event): Actor
    requires OnCase(e)
  {
    if e.Classify? then Actor(0, None) else ActorOf(roles, e.user)
  }

  function Init(): State {
    State(map[], map[])
  }

  function Step(s: State, e: Event): State {
    match e
    case OpenCase(c, amount) =>
      if c in s.cases then s else s.(cases := s.cases[c := Case(Discovered, amount, [], 0, [])])
    case SetRole(user, role) => s.(roles := s.roles[user := role])
    case _ => if e.c in s.cases then s.(cases := s.cases[e.c := Act(s.cases[e.c], WhoActs(s.roles, e), e)]) else s
  }

  function Run(events: seq<Event>): State {
    if events == [] then Init() else Step(Run(events[..|events| - 1]), events[|events| - 1])
  }

  // -------------------------------------------------------------------------
  // What every run keeps
  // -------------------------------------------------------------------------

  /** Where the case stands apart from being merged away or removed. */
  function Standing(s: Stage): Stage {
    if s.Merged? || s.Removed? then s.before else s
  }

  /** A decision's approval is of its latest packet and by another than its preparer; a filing names that packet. */
  predicate DecisionInv(d: Decision) {
    (forall i, j :: 0 <= i < j < |d.packets| ==> d.packets[i].hash != d.packets[j].hash && d.packets[i].id != d.packets[j].id) &&
    |d.approvals| <= 1 && |d.filings| <= 1 &&
    (d.approvals != [] ==>
      d.packets != [] && d.approvals[0].approver != d.preparer && d.approvals[0].hash == d.packets[Latest(d.packets)].hash) &&
    (d.filings != [] ==> d.approvals != [] && d.filings[0].hash == d.approvals[0].hash)
  }

  predicate CaseInv(c: Case) {
    var at := Standing(c.stage);
    !at.Merged? && !at.Removed? && (c.stage != at ==> BeforeFiling(at)) &&
    |c.decisions| <= 1 && c.declines <= 1 && (c.declines > 0 ==> c.decisions == []) &&
    (c.decisions == [] <==> at.Discovered? || at.Classified?) &&
    (forall d :: d in c.decisions ==>
      DecisionInv(d) &&
      (d.packets == [] <==> at.AnalystReview?) &&
      (d.filings != [] <==> at.Submitted? || at.Closed?)) &&
    (|c.outcomes| == if at.Closed? then 1 else 0) &&
    (at.Closed? ==> CentsFit(c.amount, at.outcome, c.outcomes[0]))
  }

  predicate Inv(s: State) {
    forall c :: c in s.cases ==> CaseInv(s.cases[c])
  }

  lemma AssembleKept(c: Case, k: nat, who: Actor, packet: Packet, buildable: bool)
    requires CaseInv(c)
    ensures CaseInv(AssembleAct(c, k, who, packet, buildable))
  {
    var t := AssembleAct(c, k, who, packet, buildable);
    if t != c {
      assert c.decisions[0] in c.decisions;
      assert t.decisions == [t.decisions[0]];
    }
  }

  lemma ApproveKept(c: Case, k: nat, p: nat, who: Actor)
    requires CaseInv(c)
    ensures CaseInv(ApproveAct(c, k, p, who))
  {
    var t := ApproveAct(c, k, p, who);
    if t != c {
      assert c.decisions[0] in c.decisions;
      assert t.decisions == [t.decisions[0]];
    }
  }

  lemma FileKept(c: Case, k: nat, p: nat, who: Actor, channel: nat, confirmed: bool)
    requires CaseInv(c)
    ensures CaseInv(FileAct(c, k, p, who, channel, confirmed))
  {
    var t := FileAct(c, k, p, who, channel, confirmed);
    if t != c {
      assert c.decisions[0] in c.decisions;
      assert t.decisions == [t.decisions[0]];
    }
  }

  lemma ActKept(c: Case, who: Actor, e: Event)
    requires CaseInv(c) && OnCase(e)
    ensures CaseInv(Act(c, who, e))
  {
    match e
    case Assemble(_, k, _, packet, buildable) => AssembleKept(c, k, who, packet, buildable);
    case Approve(_, k, p, _) => ApproveKept(c, k, p, who);
    case File(_, k, p, _, channel, confirmed) => FileKept(c, k, p, who, channel, confirmed);
    case _ =>
  }

  lemma StepKept(s: State, e: Event)
    requires Inv(s)
    ensures Inv(Step(s, e))
  {
    if OnCase(e) && e.c in s.cases { ActKept(s.cases[e.c], WhoActs(s.roles, e), e); }
  }

  lemma {:induction false} EveryRunKeeps(events: seq<Event>)
    ensures Inv(Run(events))
  {
    if events != [] {
      EveryRunKeeps(events[..|events| - 1]);
      StepKept(Run(events[..|events| - 1]), events[|events| - 1]);
    }
  }

  /**
   Over every run, stale forms included: a case has at most one filing, and it names the one
   approval of its decision, given by another than the decision's preparer, for the packet that is
   the decision's latest.
   */
  lemma FilingNamesItsApproval(events: seq<Event>, c: nat, k: nat)
    requires c in Run(events).cases && k < |Run(events).cases[c].decisions|
    requires Run(events).cases[c].decisions[k].filings != []
    ensures var d := Run(events).cases[c].decisions[k];
            |Run(events).cases[c].decisions| == 1 && |d.filings| == 1 && |d.approvals| == 1 && d.packets != [] &&
            d.approvals[0].approver != d.preparer &&
            d.filings[0].hash == d.approvals[0].hash == d.packets[Latest(d.packets)].hash
  {
    EveryRunKeeps(events);
    assert CaseInv(Run(events).cases[c]);
    assert Run(events).cases[c].decisions[k] in Run(events).cases[c].decisions;
  }

  /** No case is both disputed and declined, and none is either twice. */
  lemma DisputedOrDeclined(events: seq<Event>, c: nat)
    requires c in Run(events).cases
    ensures var found := Run(events).cases[c]; |found.decisions| + found.declines <= 1
  {
    EveryRunKeeps(events);
    assert CaseInv(Run(events).cases[c]);
  }

  /** A closed case recovered what its outcome says: all of it, nothing, or something in between. */
  lemma OutcomeMatchesCents(events: seq<Event>, c: nat)
    requires c in Run(events).cases && Run(events).cases[c].stage.Closed? && Run(events).cases[c].amount > 0
    ensures var found := Run(events).cases[c];
            |found.outcomes| == 1 && 0 <= found.outcomes[0] <= found.amount &&
            (found.stage.outcome.Won? <==> found.outcomes[0] == found.amount) &&
            (found.stage.outcome.Lost? <==> found.outcomes[0] == 0)
  {
    EveryRunKeeps(events);
    assert CaseInv(Run(events).cases[c]);
  }

  // -------------------------------------------------------------------------
  // What is decided is final
  // -------------------------------------------------------------------------

  /** Rows of a decision only accumulate: packets at the end, one approval, one filing. */
  predicate Extends(d: Decision, later: Decision) {
    later.preparer == d.preparer && d.packets <= later.packets && d.approvals <= later.approvals && d.filings <= later.filings &&
    (d.approvals != [] ==> later.packets == d.packets)
  }

  lemma ActExtends(c: Case, who: Actor, e: Event, k: nat)
    requires CaseInv(c) && OnCase(e) && k < |c.decisions|
    ensures k < |Act(c, who, e).decisions| && Extends(c.decisions[k], Act(c, who, e).decisions[k])
  {
    assert c.decisions[k] in c.decisions;
  }

  /** From approval on, no form changes what was approved: its packets, its approval and its preparer stay. */
  lemma {:induction false} ApprovedStaysApproved(events: seq<Event>, more: seq<Event>, c: nat, k: nat)
    requires c in Run(events).cases && k < |Run(events).cases[c].decisions|
    ensures c in Run(events + more).cases && k < |Run(events + more).cases[c].decisions|
    ensures Extends(Run(events).cases[c].decisions[k], Run(events + more).cases[c].decisions[k])
  {
    if more == [] {
      assert events + more == events;
    } else {
      var n := |more| - 1;
      ApprovedStaysApproved(events, more[..n], c, k);
      assert (events + more)[..|events + more| - 1] == events + more[..n];
      EveryRunKeeps(events + more[..n]);
      var s := Run(events + more[..n]);
      if OnCase(more[n]) && more[n].c == c {
        assert CaseInv(s.cases[c]);
        ActExtends(s.cases[c], WhoActs(s.roles, more[n]), more[n], k);
      }
    }
  }

  // -------------------------------------------------------------------------
  // What the page offers is what the store accepts
  // -------------------------------------------------------------------------

  /** The case's decision, packet, approval and filing as the page reads them (`getWorkflow`). */
  datatype View = View(decision: Option<nat>, packet: Option<nat>, approved: bool, filed: bool)

  function ApprovedPacket(packets: seq<Packet>, hash: nat): Option<nat> {
    if packets == [] then None
    else if packets[|packets| - 1].hash == hash then Some(|packets| - 1)
    else ApprovedPacket(packets[..|packets| - 1], hash)
  }

  function ViewOf(c: Case): View {
    if c.decisions == [] then View(None, None, false, false)
    else
      var k := |c.decisions| - 1;
      var d := c.decisions[k];
      var packet :=
        if d.approvals != [] then ApprovedPacket(d.packets, d.approvals[0].hash)
        else if d.packets != [] then Some(Latest(d.packets))
        else None;
      View(Some(k), packet, d.approvals != [], d.filings != [])
  }

  predicate OffersDecide(c: Case, viewer: Actor) {
    c.stage.Classified? && ViewOf(c).decision.None? && c.declines == 0 && MayWrite(viewer.role)
  }

  predicate OffersAssemble(c: Case, viewer: Actor) {
    var v := ViewOf(c);
    v.decision.Some? && MayWrite(viewer.role) &&
    ((c.stage.AnalystReview? && v.packet.None?) || (c.stage.AwaitingApproval? && v.packet.Some? && !v.approved))
  }

  predicate OffersApprove(c: Case, viewer: Actor) {
    var v := ViewOf(c);
    c.stage.AwaitingApproval? && v.packet.Some? && !v.approved && MayApprove(viewer.role) &&
    v.decision.Some? && v.decision.value < |c.decisions| && c.decisions[v.decision.value].preparer != viewer.user
  }

  predicate OffersFile(c: Case, viewer: Actor) {
    var v := ViewOf(c);
    c.stage.AwaitingApproval? && v.packet.Some? && v.approved && !v.filed && MayWrite(viewer.role)
  }

  predicate OffersOutcome(c: Case, viewer: Actor) {
    c.stage.Submitted? && MayWrite(viewer.role)
  }

  predicate OffersDecline(c: Case, viewer: Actor) {
    MayWrite(viewer.role) && c.stage.Classified? && ViewOf(c).decision.None? && c.declines == 0
  }

  lemma ApprovedPacketFound(packets: seq<Packet>, hash: nat, k: nat)
    requires k < |packets| && packets[k].hash == hash
    requires forall i, j :: 0 <= i < j < |packets| ==> packets[i].hash != packets[j].hash
    ensures ApprovedPacket(packets, hash) == Some(k)
  {
  }

  /** On a case of any run: deciding, and declining once classified, are offered exactly when the store would write. */
  lemma DecideAndDeclineOffered(c: Case, viewer: Actor)
    requires CaseInv(c)
    ensures OffersDecide(c, viewer) <==> DecideAct(c, viewer, true) != c
    ensures OffersDecline(c, viewer) <==> c.stage.Classified? && DeclineAct(c, viewer, true) != c
    ensures OffersDecide(c, viewer) <==> OffersDecline(c, viewer)
  {
  }

  /** Assembling is offered exactly when the store would take a packet with new contents. */
  lemma AssembleOffered(c: Case, viewer: Actor, packet: Packet)
    requires CaseInv(c)
    requires forall d :: d in c.decisions ==> !HasHash(d.packets, packet.hash) && !HasId(d.packets, packet.id)
    ensures OffersAssemble(c, viewer) <==>
            ViewOf(c).decision.Some? && AssembleAct(c, ViewOf(c).decision.value, viewer, packet, true) != c
  {
    if c.decisions != [] {
      var d := c.decisions[0];
      assert d in c.decisions;
      if d.approvals != [] { ApprovedPacketFound(d.packets, d.approvals[0].hash, Latest(d.packets)); }
      assert |d.packets + [packet]| != |d.packets|;
    }
  }

  /** Approving and filing the packet on the page are offered exactly when the store would write. */
  lemma ApproveAndFileOffered(c: Case, viewer: Actor, channel: nat)
    requires CaseInv(c)
    ensures var v := ViewOf(c);
            OffersApprove(c, viewer) <==>
            v.decision.Some? && v.packet.Some? && ApproveAct(c, v.decision.value, v.packet.value, viewer) != c
    ensures var v := ViewOf(c);
            OffersFile(c, viewer) <==>
            v.decision.Some? && v.packet.Some? && FileAct(c, v.decision.value, v.packet.value, viewer, channel, true) != c
  {
    if c.decisions != [] {
      var d := c.decisions[0];
      assert d in c.decisions;
      if d.approvals != [] { ApprovedPacketFound(d.packets, d.approvals[0].hash, Latest(d.packets)); }
    }
  }

  /** An outcome that fits the amount is offered exactly when the store would write it. */
  lemma OutcomeOffered(c: Case, viewer: Actor, outcome: Outcome, cents: nat)
    requires CaseInv(c) && CentsFit(c.amount, outcome, cents)
    ensures OffersOutcome(c, viewer) <==> OutcomeAct(c, viewer, outcome, cents) != c
  {
  }

  /** The store writes something for this form. */
  predicate Accepted(s: State, e: Event) {
    Step(s, e) != s
  }

  lemma AcceptedIsWritten(s: State, e: Event)
    requires OnCase(e) && e.c in s.cases
    ensures Accepted(s, e) <==> Act(s.cases[e.c], WhoActs(s.roles, e), e) != s.cases[e.c]
  {
    PutBack(s.cases, e.c, Act(s.cases[e.c], WhoActs(s.roles, e), e));
  }

  /** The page of any reachable case offers exactly the acts before a packet that the store then accepts. */
  lemma OpeningActsOffered(events: seq<Event>, c: nat, user: nat, packet: Packet)
    requires c in Run(events).cases
    requires forall d :: d in Run(events).cases[c].decisions ==> !HasHash(d.packets, packet.hash) && !HasId(d.packets, packet.id)
    ensures var s := Run(events);
            var (found, viewer) := (s.cases[c], ActorOf(s.roles, user));
            var v := ViewOf(found);
            (OffersDecide(found, viewer) <==> Accepted(s, Decide(c, user, true))) &&
            (OffersDecline(found, viewer) <==> found.stage.Classified? && Accepted(s, Decline(c, user, true))) &&
            (OffersAssemble(found, viewer) <==>
              v.decision.Some? && Accepted(s, Assemble(c, v.decision.value, user, packet, true)))
  {
    EveryRunKeeps(events);
    var s := Run(events);
    var viewer := ActorOf(s.roles, user);
    assert CaseInv(s.cases[c]);
    DecideAndDeclineOffered(s.cases[c], viewer);
    AssembleOffered(s.cases[c], viewer, packet);
    AcceptedIsWritten(s, Decide(c, user, true));
    AcceptedIsWritten(s, Decline(c, user, true));
    var v := ViewOf(s.cases[c]);
    if v.decision.Some? { AcceptedIsWritten(s, Assemble(c, v.decision.value, user, packet, true)); }
  }

  /** And exactly the acts after it: approving and filing the packet shown, and an outcome that fits. */
  lemma ClosingActsOffered(events: seq<Event>, c: nat, user: nat, channel: nat, outcome: Outcome, cents: nat)
    requires c in Run(events).cases && CentsFit(Run(events).cases[c].amount, outcome, cents)
    ensures var s := Run(events);
            var (found, viewer) := (s.cases[c], ActorOf(s.roles, user));
            var v := ViewOf(found);
            (OffersApprove(found, viewer) <==>
              v.decision.Some? && v.packet.Some? && Accepted(s, Approve(c, v.decision.value, v.packet.value, user))) &&
            (OffersFile(found, viewer) <==>
              v.decision.Some? && v.packet.Some? && Accepted(s, File(c, v.decision.value, v.packet.value, user, channel, true))) &&
            (OffersOutcome(found, viewer) <==> Accepted(s, RecordOutcome(c, user, outcome, cents)))
  {
    EveryRunKeeps(events);
    var s := Run(events);
    var viewer := ActorOf(s.roles, user);
    assert CaseInv(s.cases[c]);
    ApproveAndFileOffered(s.cases[c], viewer, channel);
    OutcomeOffered(s.cases[c], viewer, outcome, cents);
    AcceptedIsWritten(s, RecordOutcome(c, user, outcome, cents));
    var v := ViewOf(s.cases[c]);
    if v.decision.Some? && v.packet.Some? {
      AcceptedIsWritten(s, Approve(c, v.decision.value, v.packet.value, user));
      AcceptedIsWritten(s, File(c, v.decision.value, v.packet.value, user, channel, true));
    }
  }

  /** The page of any reachable case offers each of its six acts exactly when the store then accepts it. */
  lemma OfferedIsAccepted(events: seq<Event>, c: nat, user: nat, packet: Packet, channel: nat, outcome: Outcome, cents: nat)
    requires c in Run(events).cases && CentsFit(Run(events).cases[c].amount, outcome, cents)
    requires forall d :: d in Run(events).cases[c].decisions ==> !HasHash(d.packets, packet.hash) && !HasId(d.packets, packet.id)
    ensures var s := Run(events);
            var (found, viewer) := (s.cases[c], ActorOf(s.roles, user));
            var v := ViewOf(found);
            (OffersDecide(found, viewer) <==> Accepted(s, Decide(c, user, true))) &&
            (OffersDecline(found, viewer) <==> found.stage.Classified? && Accepted(s, Decline(c, user, true))) &&
            (OffersOutcome(found, viewer) <==> Accepted(s, RecordOutcome(c, user, outcome, cents))) &&
            (OffersAssemble(found, viewer) <==>
              v.decision.Some? && Accepted(s, Assemble(c, v.decision.value, user, packet, true))) &&
            (OffersApprove(found, viewer) <==>
              v.decision.Some? && v.packet.Some? && Accepted(s, Approve(c, v.decision.value, v.packet.value, user))) &&
            (OffersFile(found, viewer) <==>
              v.decision.Some? && v.packet.Some? && Accepted(s, File(c, v.decision.value, v.packet.value, user, channel, true)))
  {
    OpeningActsOffered(events, c, user, packet);
    ClosingActsOffered(events, c, user, channel, outcome, cents);
  }

  lemma PutBack(cases: map<nat, Case>, c: nat, after: Case)
    requires c in cases
    ensures cases[c := after] == cases <==> after == cases[c]
  {
    if cases[c := after] == cases { assert cases[c := after][c] == after; }
  }
}
