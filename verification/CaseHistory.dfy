/**
 Where each row of a case comes from: the act that wrote it, and the role its user had at that moment;
 and a case that goes from its opening to its outcome.
 */
module CaseHistory {
  import opened CaseWorkflow

  // -------------------------------------------------------------------------
  // Roles
  // -------------------------------------------------------------------------

  /** No later event gives this user another role. */
  predicate LastGiven(events: seq<Event>, k: nat, user: nat, role: Role) {
    k < |events| && events[k] == SetRole(user, role) &&
    forall j :: k < j < |events| ==> !(events[j].SetRole? && events[j].user == user)
  }

  lemma RolesStep(s: State, e: Event)
    ensures Step(s, e).roles == if e.SetRole? then s.roles[e.user := e.role] else s.roles
  {
  }

  /** A user's role is the one last given. */
  lemma {:induction false} RoleIsLastGiven(events: seq<Event>, user: nat, role: Role)
    ensures user in Run(events).roles && Run(events).roles[user] == role <==> exists k: nat :: LastGiven(events, k, user, role)
  {
    if events != [] {
      var (before, e) := (events[..|events| - 1], events[|events| - 1]);
      RoleIsLastGiven(before, user, role);
      RolesStep(Run(before), e);
      if e.SetRole? && e.user == user {
        if e.role == role { assert LastGiven(events, |before|, user, role); }
      } else {
        if k: nat :| LastGiven(before, k, user, role) { assert LastGiven(events, k, user, role); }
        if k: nat :| LastGiven(events, k, user, role) { assert LastGiven(before, k, user, role); }
      }
    }
  }

  /** At step `k` this user is an owner, an approver or an analyst. */
  predicate WriterThen(events: seq<Event>, k: nat, user: nat)
    requires k < |events|
  {
    var roles := Run(events[..k]).roles;
    user in roles && (roles[user] == Owner || roles[user] == Approver || roles[user] == Analyst)
  }

  /** At step `k` this user is an owner or an approver. */
  predicate ApproverThen(events: seq<Event>, k: nat, user: nat)
    requires k < |events|
  {
    var roles := Run(events[..k]).roles;
    user in roles && (roles[user] == Owner || roles[user] == Approver)
  }

  // -------------------------------------------------------------------------
  // The act behind each row
  // -------------------------------------------------------------------------

  predicate Decided(events: seq<Event>, k: nat, c: nat, preparer: nat) {
    k < |events| && events[k] == Decide(c, preparer, true) && WriterThen(events, k, preparer)
  }

  predicate Assembled(events: seq<Event>, k: nat, c: nat, packet: Packet) {
    k < |events| && events[k].Assemble? && events[k].c == c && events[k].contents == packet && events[k].buildable &&
    WriterThen(events, k, events[k].user)
  }

  /** The packet of the form, as it stood, is the one approved. */
  predicate Approved(events: seq<Event>, k: nat, c: nat, a: Approval) {
    k < |events| && events[k].Approve? && events[k].c == c && events[k].user == a.approver && ApproverThen(events, k, a.approver) &&
    PacketThen(events, k, c, events[k].decision, events[k].packet, a.hash)
  }

  predicate Filed(events: seq<Event>, k: nat, c: nat, f: Filing) {
    k < |events| && events[k].File? && events[k].c == c && events[k].channel == f.channel && events[k].confirmed &&
    WriterThen(events, k, events[k].user) && PacketThen(events, k, c, events[k].decision, events[k].packet, f.hash)
  }

  predicate PacketThen(events: seq<Event>, k: nat, c: nat, decision: nat, packet: nat, hash: nat)
    requires k < |events|
  {
    var cases := Run(events[..k]).cases;
    c in cases && decision < |cases[c].decisions| && packet < |cases[c].decisions[decision].packets| &&
    cases[c].decisions[decision].packets[packet].hash == hash
  }

  predicate OutcomeRecorded(events: seq<Event>, k: nat, c: nat, outcome: Outcome, cents: nat) {
    k < |events| && events[k].RecordOutcome? && events[k].c == c && events[k].outcome == outcome && events[k].cents == cents &&
    WriterThen(events, k, events[k].user)
  }

  predicate Declined(events: seq<Event>, k: nat, c: nat) {
    k < |events| && events[k].Decline? && events[k].c == c && events[k].provenanceKnown && WriterThen(events, k, events[k].user)
  }

  ghost predicate DecisionBacked(events: seq<Event>, c: nat, d: Decision) {
    (exists k: nat :: Decided(events, k, c, d.preparer)) &&
    (forall p :: p in d.packets ==> exists k: nat :: Assembled(events, k, c, p)) &&
    (forall a :: a in d.approvals ==> exists k: nat :: Approved(events, k, c, a)) &&
    (forall f :: f in d.filings ==> exists k: nat :: Filed(events, k, c, f))
  }

  ghost predicate CaseBacked(events: seq<Event>, c: nat, found: Case) {
    (forall d :: d in found.decisions ==> DecisionBacked(events, c, d)) &&
    (found.stage.Closed? ==> |found.outcomes| == 1 && exists k: nat :: OutcomeRecorded(events, k, c, found.stage.outcome, found.outcomes[0])) &&
    (found.declines > 0 ==> exists k: nat :: Declined(events, k, c))
  }

  lemma WritersThenAndNow(before: seq<Event>, e: Event, k: nat, user: nat)
    requires k < |before|
    ensures WriterThen(before + [e], k, user) <==> WriterThen(before, k, user)
    ensures ApproverThen(before + [e], k, user) <==> ApproverThen(before, k, user)
  {
    assert (before + [e])[..k] == before[..k];
  }

  lemma DecisionStaysBacked(before: seq<Event>, e: Event, c: nat, d: Decision)
    requires DecisionBacked(before, c, d)
    ensures DecisionBacked(before + [e], c, d)
  {
    var events := before + [e];
    forall k: nat | k < |before| ensures events[..k] == before[..k] {}
    var k: nat :| Decided(before, k, c, d.preparer);
    assert Decided(events, k, c, d.preparer);
    forall p | p in d.packets ensures exists k: nat :: Assembled(events, k, c, p) {
      var k: nat :| Assembled(before, k, c, p);
      assert Assembled(events, k, c, p);
    }
    forall a | a in d.approvals ensures exists k: nat :: Approved(events, k, c, a) {
      var k: nat :| Approved(before, k, c, a);
      assert Approved(events, k, c, a);
    }
    forall f | f in d.filings ensures exists k: nat :: Filed(events, k, c, f) {
      var k: nat :| Filed(before, k, c, f);
      assert Filed(events, k, c, f);
    }
  }

  lemma OutcomeStaysBacked(before: seq<Event>, e: Event, c: nat, outcome: Outcome, cents: nat)
    requires exists k: nat :: OutcomeRecorded(before, k, c, outcome, cents)
    ensures exists k: nat :: OutcomeRecorded(before + [e], k, c, outcome, cents)
  {
    var k: nat :| OutcomeRecorded(before, k, c, outcome, cents);
    assert (before + [e])[..k] == before[..k];
    assert OutcomeRecorded(before + [e], k, c, outcome, cents);
  }

  lemma DeclineStaysBacked(before: seq<Event>, e: Event, c: nat)
    requires exists k: nat :: Declined(before, k, c)
    ensures exists k: nat :: Declined(before + [e], k, c)
  {
    var k: nat :| Declined(before, k, c);
    assert (before + [e])[..k] == before[..k];
    assert Declined(before + [e], k, c);
  }

  // -------------------------------------------------------------------------
  // What one act writes
  // -------------------------------------------------------------------------

  /** The packet rows an assembling adds, the approval and the filing a form adds, by whom and when. */
  lemma ActAddsToDecision(c: Case, who: Actor, e: Event)
    requires CaseInv(c) && OnCase(e) && c.decisions != []
    ensures var (b, t) := (c.decisions[0], Act(c, who, e));
            var writes := who.role == Some(Owner) || who.role == Some(Approver) || who.role == Some(Analyst);
            var approves := who.role == Some(Owner) || who.role == Some(Approver);
            |t.decisions| == 1 && t.decisions[0].preparer == b.preparer &&
            (t.decisions[0].packets == b.packets ||
             (e.Assemble? && e.buildable && writes && t.decisions[0].packets == b.packets + [e.contents])) &&
            (t.decisions[0].approvals == b.approvals ||
             (e.Approve? && approves && e.decision == 0 && e.packet < |b.packets| &&
              t.decisions[0].approvals == [Approval(who.user, b.packets[e.packet].hash)])) &&
            (t.decisions[0].filings == b.filings ||
             (e.File? && e.confirmed && writes && e.decision == 0 && e.packet < |b.packets| &&
              t.decisions[0].filings == b.filings + [Filing(e.channel, b.packets[e.packet].hash)]))
  {
  }

  lemma ActAddsDecision(c: Case, who: Actor, e: Event)
    requires CaseInv(c) && OnCase(e) && c.decisions == []
    ensures var t := Act(c, who, e);
            t.decisions == [] ||
            (e.Decide? && e.wellFormed && t.decisions == [Decision(who.user, [], [], [])] &&
             (who.role == Some(Owner) || who.role == Some(Approver) || who.role == Some(Analyst)))
  {
  }

  lemma ActAddsEndings(c: Case, who: Actor, e: Event)
    requires CaseInv(c) && OnCase(e)
    ensures var t := Act(c, who, e);
            var writes := who.role == Some(Owner) || who.role == Some(Approver) || who.role == Some(Analyst);
            (t.stage.Closed? ==>
              (t.stage == c.stage && t.outcomes == c.outcomes) ||
              (e.RecordOutcome? && writes && t.stage.outcome == e.outcome && e.cents >= 0 && t.outcomes == [e.cents])) &&
            (t.declines > 0 ==> c.declines > 0 || (e.Decline? && e.provenanceKnown && writes))
  {
  }

  lemma ActorThen(events: seq<Event>, e: Event)
    requires OnCase(e) && !e.Classify?
    ensures var who := WhoActs(Run(events).roles, e);
            who.user == e.user &&
            (who.role == Some(Owner) || who.role == Some(Approver) || who.role == Some(Analyst) <==>
              WriterThen(events + [e], |events|, e.user)) &&
            (who.role == Some(Owner) || who.role == Some(Approver) <==> ApproverThen(events + [e], |events|, e.user))
  {
    assert (events + [e])[..|events|] == events;
  }

  lemma NewDecisionBacked(before: seq<Event>, e: Event, c: nat)
    requires OnCase(e) && e.c == c && c in Run(before).cases && CaseInv(Run(before).cases[c])
    requires Run(before).cases[c].decisions == []
    ensures forall d :: d in Act(Run(before).cases[c], WhoActs(Run(before).roles, e), e).decisions ==> DecisionBacked(before + [e], c, d)
  {
    ActAddsDecision(Run(before).cases[c], WhoActs(Run(before).roles, e), e);
    if e.Decide? {
      ActorThen(before, e);
      assert WriterThen(before + [e], |before|, e.user) && e.wellFormed ==> Decided(before + [e], |before|, c, e.user);
    }
  }

  /** A decision whose rows are backed stays so with a row that its last step backs. */
  lemma OneMoreRowBacked(events: seq<Event>, n: nat, c: nat, b: Decision, d: Decision)
    requires DecisionBacked(events, c, b) && d.preparer == b.preparer
    requires forall p :: p in d.packets ==> p in b.packets || Assembled(events, n, c, p)
    requires forall a :: a in d.approvals ==> a in b.approvals || Approved(events, n, c, a)
    requires forall f :: f in d.filings ==> f in b.filings || Filed(events, n, c, f)
    ensures DecisionBacked(events, c, d)
  {
  }

  lemma GrownDecisionBacked(before: seq<Event>, e: Event, c: nat)
    requires OnCase(e) && e.c == c && c in Run(before).cases && CaseInv(Run(before).cases[c])
    requires Run(before).cases[c].decisions != [] && DecisionBacked(before, c, Run(before).cases[c].decisions[0])
    ensures var t := Act(Run(before).cases[c], WhoActs(Run(before).roles, e), e);
            |t.decisions| == 1 && DecisionBacked(before + [e], c, t.decisions[0])
  {
    NewRowsBacked(before, e, c);
    var b := Run(before).cases[c].decisions[0];
    DecisionStaysBacked(before, e, c, b);
    OneMoreRowBacked(before + [e], |before|, c, b, Act(Run(before).cases[c], WhoActs(Run(before).roles, e), e).decisions[0]);
  }

  lemma NewRowsBacked(before: seq<Event>, e: Event, c: nat)
    requires OnCase(e) && e.c == c && c in Run(before).cases && CaseInv(Run(before).cases[c])
    requires Run(before).cases[c].decisions != []
    ensures var (found, n, events) := (Run(before).cases[c], |before|, before + [e]);
            var t := Act(found, WhoActs(Run(before).roles, e), e);
            |t.decisions| == 1 &&
            var (b, d) := (found.decisions[0], t.decisions[0]);
            d.preparer == b.preparer &&
            (forall p :: p in d.packets ==> p in b.packets || Assembled(events, n, c, p)) &&
            (forall a :: a in d.approvals ==> a in b.approvals || Approved(events, n, c, a)) &&
            (forall f :: f in d.filings ==> f in b.filings || Filed(events, n, c, f))
  {
    var (found, who, events) := (Run(before).cases[c], WhoActs(Run(before).roles, e), before + [e]);
    var (b, d) := (found.decisions[0], Act(found, who, e).decisions[0]);
    ActAddsToDecision(found, who, e);
    assert events[..|before|] == before;
    if e.Assemble? && d.packets != b.packets { ActorThen(before, e); }
    if e.Approve? && d.approvals != b.approvals { ActorThen(before, e); }
    if e.File? && d.filings != b.filings { ActorThen(before, e); }
  }

  lemma EndingsBacked(before: seq<Event>, e: Event, c: nat)
    requires OnCase(e) && e.c == c && c in Run(before).cases && CaseInv(Run(before).cases[c])
    requires CaseBacked(before, c, Run(before).cases[c])
    ensures var t := Act(Run(before).cases[c], WhoActs(Run(before).roles, e), e);
            (t.stage.Closed? ==> |t.outcomes| == 1 && exists k: nat :: OutcomeRecorded(before + [e], k, c, t.stage.outcome, t.outcomes[0])) &&
            (t.declines > 0 ==> exists k: nat :: Declined(before + [e], k, c))
  {
    var (found, who, n) := (Run(before).cases[c], WhoActs(Run(before).roles, e), |before|);
    ActAddsEndings(found, who, e);
    if found.stage.Closed? { OutcomeStaysBacked(before, e, c, found.stage.outcome, found.outcomes[0]); }
    if found.declines > 0 { DeclineStaysBacked(before, e, c); }
    if e.RecordOutcome? || e.Decline? { ActorThen(before, e); }
    var t := Act(found, who, e);
    if t.stage.Closed? && !(t.stage == found.stage && t.outcomes == found.outcomes) {
      assert OutcomeRecorded(before + [e], n, c, t.stage.outcome, t.outcomes[0]);
    }
    if t.declines > 0 && found.declines == 0 { assert Declined(before + [e], n, c); }
  }

  lemma OneDecisionBacked(events: seq<Event>, c: nat, t: Case)
    requires |t.decisions| == 1 && DecisionBacked(events, c, t.decisions[0])
    ensures forall d :: d in t.decisions ==> DecisionBacked(events, c, d)
  {
  }

  lemma ActBacked(before: seq<Event>, e: Event, c: nat)
    requires OnCase(e) && e.c == c && c in Run(before).cases && CaseInv(Run(before).cases[c])
    requires CaseBacked(before, c, Run(before).cases[c])
    ensures CaseBacked(before + [e], c, Act(Run(before).cases[c], WhoActs(Run(before).roles, e), e))
  {
    EndingsBacked(before, e, c);
    if Run(before).cases[c].decisions == [] {
      NewDecisionBacked(before, e, c);
    } else {
      GrownDecisionBacked(before, e, c);
      OneDecisionBacked(before + [e], c, Act(Run(before).cases[c], WhoActs(Run(before).roles, e), e));
    }
  }

  lemma OtherCasesStayBacked(before: seq<Event>, e: Event, c: nat, found: Case)
    requires CaseBacked(before, c, found)
    ensures CaseBacked(before + [e], c, found)
  {
    forall d | d in found.decisions ensures DecisionBacked(before + [e], c, d) { DecisionStaysBacked(before, e, c, d); }
    if found.stage.Closed? { OutcomeStaysBacked(before, e, c, found.stage.outcome, found.outcomes[0]); }
    if found.declines > 0 { DeclineStaysBacked(before, e, c); }
  }

  /** A step leaves a case as it was, acts on it, or opens it. */
  lemma StepOnCase(s: State, e: Event, c: nat)
    requires c in Step(s, e).cases
    ensures if c in s.cases then
              Step(s, e).cases[c] == if OnCase(e) && e.c == c then Act(s.cases[c], WhoActs(s.roles, e), e) else s.cases[c]
            else e.OpenCase? && e.c == c && Step(s, e).cases[c] == Case(Discovered, e.amount, [], 0, [])
  {
  }

  lemma StepBacked(before: seq<Event>, e: Event, c: nat)
    requires Inv(Run(before)) && c in Step(Run(before), e).cases
    requires c in Run(before).cases ==> CaseBacked(before, c, Run(before).cases[c])
    ensures CaseBacked(before + [e], c, Step(Run(before), e).cases[c])
  {
    StepOnCase(Run(before), e, c);
    if c in Run(before).cases {
      if OnCase(e) && e.c == c { ActBacked(before, e, c); } else { OtherCasesStayBacked(before, e, c, Run(before).cases[c]); }
    }
  }

  /**
   Over every run, each row of a case was written by an act for it: its approval by an owner or an
   approver for the packet of the form, its decision, packets, filing, outcome and decline by an owner,
   an approver or an analyst, each in that role at that moment.
   */
  lemma {:induction false} EveryRowHasItsAct(events: seq<Event>, c: nat)
    requires c in Run(events).cases
    ensures CaseBacked(events, c, Run(events).cases[c])
  {
    var (before, e) := (events[..|events| - 1], events[|events| - 1]);
    assert events == before + [e];
    EveryRunKeeps(before);
    if c in Run(before).cases { EveryRowHasItsAct(before, c); }
    StepBacked(before, e, c);
  }

  /** Whatever form an analyst or a reader approves with, nothing is written. */
  lemma OnlyApproversApprove(events: seq<Event>, c: nat, decision: nat, packet: nat, user: nat)
    requires var roles := Run(events).roles; user in roles ==> roles[user] == Analyst || roles[user] == ReadOnly
    ensures Run(events + [Approve(c, decision, packet, user)]) == Run(events)
  {
    var s := Run(events);
    assert (events + [Approve(c, decision, packet, user)])[..|events|] == events;
    if c in s.cases { assert s.cases[c := s.cases[c]] == s.cases; }
  }

  /** Nor does a reader's form of any kind, nor that of one who is no member. */
  lemma ReadersWriteNothing(events: seq<Event>, e: Event)
    requires OnCase(e) && !e.Classify?
    requires var roles := Run(events).roles; e.user in roles ==> roles[e.user] == ReadOnly
    ensures Run(events + [e]) == Run(events)
  {
    var s := Run(events);
    assert (events + [e])[..|events|] == events;
    if e.c in s.cases { assert s.cases[e.c := s.cases[e.c]] == s.cases; }
  }

  // -------------------------------------------------------------------------
  // From opening to outcome
  // -------------------------------------------------------------------------

  function WithCase(s: State, c: nat, found: Case): State {
    s.(cases := s.cases[c := found])
  }

  lemma ActOnly(s: State, c: nat, found: Case, e: Event)
    requires OnCase(e) && e.c == c
    ensures Step(WithCase(s, c, found), e) == WithCase(s, c, Act(found, WhoActs(s.roles, e), e))
  {
    assert s.cases[c := found][c := Act(found, WhoActs(s.roles, e), e)] == s.cases[c := Act(found, WhoActs(s.roles, e), e)];
  }

  lemma {:induction false} RunTo(events: seq<Event>, more: seq<Event>, states: seq<State>)
    requires |states| == |more| + 1 && states[0] == Run(events)
    requires forall k: nat | k < |more| :: Step(states[k], more[k]) == states[k + 1]
    ensures Run(events + more) == states[|more|]
  {
    if more == [] {
      assert events + more == events;
    } else {
      var n := |more| - 1;
      RunTo(events, more[..n], states[..n + 1]);
      assert (events + more)[..|events + more| - 1] == events + more[..n];
    }
  }

  /** The seven acts of a case that is disputed and comes back. */
  function Dispute(c: nat, amount: nat, preparer: nat, approver: nat, packet: Packet, channel: nat, outcome: Outcome, cents: nat): seq<Event> {
    [OpenCase(c, amount), Classify(c), Decide(c, preparer, true), Assemble(c, 0, preparer, packet, true),
     Approve(c, 0, 0, approver), File(c, 0, 0, preparer, channel, true), RecordOutcome(c, preparer, outcome, cents)]
  }

  function Disputed(amount: nat, preparer: nat, approver: nat, packet: Packet, channel: nat, outcome: Outcome, cents: nat): seq<Case> {
    var d := Decision(preparer, [packet], [], []);
    var approved := d.(approvals := [Approval(approver, packet.hash)]);
    var filed := approved.(filings := [Filing(channel, packet.hash)]);
    [Case(Discovered, amount, [], 0, []), Case(Classified, amount, [], 0, []),
     Case(AnalystReview, amount, [Decision(preparer, [], [], [])], 0, []), Case(AwaitingApproval, amount, [d], 0, []),
     Case(AwaitingApproval, amount, [approved], 0, []), Case(Submitted, amount, [filed], 0, []),
     Case(Closed(outcome), amount, [filed], 0, [cents])]
  }

  lemma DisputeActs(preparer: Actor, approver: Actor, amount: nat, packet: Packet, channel: nat, outcome: Outcome, cents: nat)
    requires preparer.role == Some(Owner) || preparer.role == Some(Approver) || preparer.role == Some(Analyst)
    requires approver.role == Some(Owner) || approver.role == Some(Approver)
    requires preparer.user != approver.user
    requires match outcome case Won => cents == amount case Partial => 0 < cents < amount case Lost => cents == 0
    ensures var s := Disputed(amount, preparer.user, approver.user, packet, channel, outcome, cents);
            DecideAct(s[1], preparer, true) == s[2] && AssembleAct(s[2], 0, preparer, packet, true) == s[3] &&
            ApproveAct(s[3], 0, 0, approver) == s[4] && FileAct(s[4], 0, 0, preparer, channel, true) == s[5] &&
            OutcomeAct(s[5], preparer, outcome, cents) == s[6]
  {
    assert Latest([packet]) == 0;
    var s := Disputed(amount, preparer.user, approver.user, packet, channel, outcome, cents);
    assert s[2].decisions[0 := s[3].decisions[0]] == s[3].decisions && s[3].decisions[0 := s[4].decisions[0]] == s[4].decisions;
    assert s[4].decisions[0 := s[5].decisions[0]] == s[5].decisions;
    assert [] + [packet] == [packet] && [] + [Filing(channel, packet.hash)] == [Filing(channel, packet.hash)];
    assert s[5].outcomes + [cents] == s[6].outcomes;
  }

  lemma DisputeStep(s: State, c: nat, amount: nat, preparer: nat, approver: nat, packet: Packet, channel: nat, outcome: Outcome, cents: nat, k: nat)
    requires 0 < k < 7 && preparer != approver
    requires preparer in s.roles && s.roles[preparer] != ReadOnly
    requires approver in s.roles && (s.roles[approver] == Owner || s.roles[approver] == Approver)
    requires match outcome case Won => cents == amount case Partial => 0 < cents < amount case Lost => cents == 0
    ensures var path := Dispute(c, amount, preparer, approver, packet, channel, outcome, cents);
            var cases := Disputed(amount, preparer, approver, packet, channel, outcome, cents);
            Step(WithCase(s, c, cases[k - 1]), path[k]) == WithCase(s, c, cases[k])
  {
    var path := Dispute(c, amount, preparer, approver, packet, channel, outcome, cents);
    var cases := Disputed(amount, preparer, approver, packet, channel, outcome, cents);
    DisputeActs(ActorOf(s.roles, preparer), ActorOf(s.roles, approver), amount, packet, channel, outcome, cents);
    ActOnly(s, c, cases[k - 1], path[k]);
  }

  /**
   A new case of any reachable state, decided and filed by one who may write and approved by another who
   may approve, closes with the outcome and the cents they recorded, under the packet they approved.
   */
  lemma DisputeComesBack(events: seq<Event>, c: nat, amount: nat, preparer: nat, approver: nat, packet: Packet, channel: nat, outcome: Outcome, cents: nat)
    requires c !in Run(events).cases && preparer != approver
    requires preparer in Run(events).roles && Run(events).roles[preparer] != ReadOnly
    requires approver in Run(events).roles && (Run(events).roles[approver] == Owner || Run(events).roles[approver] == Approver)
    requires match outcome case Won => cents == amount case Partial => 0 < cents < amount case Lost => cents == 0
    ensures var s := Run(events + Dispute(c, amount, preparer, approver, packet, channel, outcome, cents));
            c in s.cases && s.cases[c] == Case(Closed(outcome), amount,
              [Decision(preparer, [packet], [Approval(approver, packet.hash)], [Filing(channel, packet.hash)])], 0, [cents])
  {
    var (s, path) := (Run(events), Dispute(c, amount, preparer, approver, packet, channel, outcome, cents));
    var cases := Disputed(amount, preparer, approver, packet, channel, outcome, cents);
    var states := [s] + seq(7, k requires 0 <= k < 7 => WithCase(s, c, cases[k]));
    forall k: nat | k < 7 ensures Step(states[k], path[k]) == states[k + 1] {
      if k > 0 { DisputeStep(s, c, amount, preparer, approver, packet, channel, outcome, cents, k); }
    }
    RunTo(events, path, states);
  }

  /** And a new case that is declined instead, as soon as it is opened or once classified, takes no decision. */
  lemma DeclinedComesToNothing(events: seq<Event>, c: nat, amount: nat, user: nat, decider: nat, wellFormed: bool)
    requires c !in Run(events).cases && user in Run(events).roles && Run(events).roles[user] != ReadOnly
    ensures var s := Run(events + [OpenCase(c, amount), Decline(c, user, true), Classify(c), Decide(c, decider, wellFormed)]);
            c in s.cases && s.cases[c] == Case(Classified, amount, [], 1, [])
  {
    var s := Run(events);
    var path := [OpenCase(c, amount), Decline(c, user, true), Classify(c), Decide(c, decider, wellFormed)];
    var cases := [Case(Discovered, amount, [], 0, []), Case(Discovered, amount, [], 1, []), Case(Classified, amount, [], 1, []),
                  Case(Classified, amount, [], 1, [])];
    var states := [s] + seq(4, k requires 0 <= k < 4 => WithCase(s, c, cases[k]));
    forall k: nat | k < 4 ensures Step(states[k], path[k]) == states[k + 1] {
      if k > 0 { ActOnly(s, c, cases[k - 1], path[k]); }
    }
    RunTo(events, path, states);
  }
}
