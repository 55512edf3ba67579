/**
 One email at the inbound door: any number of Postmark deliveries of one message to one address,
 each running `handleInboundPostmark` and `receiveInboundEmail` await by await, with the message
 claim, the address's life, the rows the database keeps, the read events and the runtime's window.

 Every await may fail, lose its reply or be the last thing the process does. What the code does to
 keep one record and one read is a design: deliveries take a claim, the table has a unique index, and
 the read's key is the row's own id. Each may be switched off to see what it is for.
 */
module InboundDoor {

  datatype Option<+T> = None | Some(value: T)

  datatype Design = Design(claims: bool, indexed: bool, keyIsRow: bool)

  const AS_BUILT := Design(true, true, true)

  datatype Address = Unissued | Live | Retired

  datatype Status = Ok200 | Refused403 | TryAgain503

  /** Where one delivery stands. `AtAnswer` is decided and not yet sent; `Gone` died unanswered. */
  datatype Point =
    | AtLookup | AtRefuse | AtRefuseInsert | AtMember | AtClaim | AtExisting | AtIngest | AtSelect | AtInsert | AtCommit
    | AtSend | AtAnswer(status: Status) | Answered(status: Status) | Gone

  /** A delivery, what its lookup saw, and the message row it was handed. */
  datatype Delivery = Delivery(at: Point, saw: Option<Address>, message: Option<nat>)

  /** What is durable: the address, the ids of the message's rows by outcome, and the keys of the read events accepted. */
  datatype Door = Door(design: Design, address: Address, received: seq<nat>, refused: seq<nat>, queued: seq<nat>, nextId: nat)

  datatype State = State(
    door: Door,
    claim: Option<nat>,
    deliveries: seq<Delivery>,
    window: set<nat>,
    expired: seq<nat>,
    runs: seq<nat>)

  /** How one await ended: done, refused or unreachable, or done with its reply lost. */
  datatype Reply = Fine | Failed | DoneButLost

  datatype Event =
    | Issue | Retire
    | Arrive
    | Lookup(i: nat, ok: bool)
    | Refuse(i: nat, mayWrite: bool, ok: bool)
    | RefuseInsert(i: nat, reply: Reply)
    | Member(i: nat, mayWrite: bool, ok: bool)
    | Claim(i: nat, connected: bool)
    | Existing(i: nat, ok: bool)
    | Ingest(i: nat, ok: bool)
    | Select(i: nat, ok: bool)
    | Insert(i: nat, reply: Reply)
    | Commit(i: nat, ok: bool)
    | Send(i: nat, reply: Reply)
    | Answer(i: nat)
    | Die(i: nat)
    | StartRead(key: nat)
    | ExpireKey(key: nat)

  // -------------------------------------------------------------------------
  // The steps
  // -------------------------------------------------------------------------

  function NewDoor(design: Design): Door {
    Door(design, Unissued, [], [], [], 0)
  }

  function Init(design: Design): State {
    State(NewDoor(design), None, [], {}, [], [])
  }

  /** Points inside `withMessageClaim`. */
  predicate Inside(at: Point) {
    at.AtExisting? || at.AtIngest? || at.AtSelect? || at.AtInsert? || at.AtCommit?
  }

  /** Points reached only after no row of the message was found. */
  predicate SawNoRow(at: Point) {
    at.AtIngest? || at.AtSelect? || at.AtInsert?
  }

  /** Points reached only with the message's row written. */
  predicate PastRecord(at: Point) {
    at.AtCommit? || at.AtSend? || at == AtAnswer(Ok200) || at == Answered(Ok200)
  }

  /** Each event of a delivery is for one point of it. */
  predicate InTurn(d: Delivery, e: Event) {
    match e
    case Lookup(_, _) => d.at.AtLookup?
    case Refuse(_, _, _) => d.at.AtRefuse?
    case RefuseInsert(_, _) => d.at.AtRefuseInsert?
    case Member(_, _, _) => d.at.AtMember?
    case Existing(_, _) => d.at.AtExisting?
    case Ingest(_, _) => d.at.AtIngest?
    case Select(_, _) => d.at.AtSelect?
    case Insert(_, _) => d.at.AtInsert?
    case Commit(_, _) => d.at.AtCommit?
    case Send(_, _) => d.at.AtSend? && d.message.Some?
    case Answer(_) => d.at.AtAnswer?
    case Die(_) => !d.at.Answered? && !d.at.Gone?
    case _ => false
  }

  /** What one await of a delivery writes and where it leaves the delivery. */
  datatype Effect = Effect(door: Door, d: Delivery)

  function MoveTo(door: Door, d: Delivery, at: Point): Effect {
    Effect(door, d.(at := at))
  }

  function OnFailure(door: Door, d: Delivery, ok: bool, at: Point): Effect {
    MoveTo(door, d, if ok then at else AtAnswer(TryAgain503))
  }

  function LookupEffect(door: Door, d: Delivery): Effect {
    var at :=
      match door.address
      case Unissued => AtAnswer(Refused403)
      case Live => AtMember
      case Retired => AtRefuse;
    Effect(door, d.(at := at, saw := Some(door.address)))
  }

  /** A row found is the delivery's message; otherwise it goes on without one. */
  function FoundOr(door: Door, d: Delivery, ok: bool, otherwise: Point): Effect {
    if ok && door.received != [] then MoveTo(door, d.(message := Some(door.received[0])), AtCommit)
    else OnFailure(door, d, ok, otherwise)
  }

  /** The insert of `app.record_inbound_message`: a row of its own, unless the index has one. */
  function InsertEffect(door: Door, d: Delivery, reply: Reply): Effect {
    if reply.Failed? || (door.design.indexed && door.received != []) then MoveTo(door, d, AtAnswer(TryAgain503))
    else
      OnFailure(door.(received := door.received + [door.nextId], nextId := door.nextId + 1),
                d.(message := Some(door.nextId)), reply.Fine?, AtCommit)
  }

  function RefuseInsertEffect(door: Door, d: Delivery, reply: Reply): Effect {
    if reply.Failed? || (door.design.indexed && door.refused != []) then MoveTo(door, d, AtAnswer(TryAgain503))
    else OnFailure(door.(refused := door.refused + [door.nextId], nextId := door.nextId + 1), d, reply.Fine?, AtAnswer(Refused403))
  }

  /** `deps.send`: the event's `readKey` is the recorded message's id. */
  function SendEffect(door: Door, d: Delivery, reply: Reply): Effect
    requires d.message.Some?
  {
    var key := if door.design.keyIsRow then d.message.value else door.nextId;
    if reply.Failed? then MoveTo(door, d, AtAnswer(TryAgain503))
    else OnFailure(door.(queued := door.queued + [key], nextId := door.nextId + 1), d, reply.Fine?, AtAnswer(Ok200))
  }

  function Act(door: Door, d: Delivery, e: Event): Effect
    requires InTurn(d, e)
  {
    match e
    case Lookup(_, ok) => if ok then LookupEffect(door, d) else MoveTo(door, d, AtAnswer(TryAgain503))
    case Refuse(_, mayWrite, ok) =>
      OnFailure(door, d, ok, if mayWrite && door.refused == [] then AtRefuseInsert else AtAnswer(Refused403))
    case RefuseInsert(_, reply) => RefuseInsertEffect(door, d, reply)
    case Member(_, mayWrite, ok) => OnFailure(door, d, ok && mayWrite, AtClaim)
    case Existing(_, ok) => FoundOr(door, d, ok, AtIngest)
    case Ingest(_, ok) => OnFailure(door, d, ok, AtSelect)
    case Select(_, ok) => FoundOr(door, d, ok && !door.address.Retired?, AtInsert)
    case Insert(_, reply) => InsertEffect(door, d, reply)
    case Commit(_, ok) => OnFailure(door, d, ok, AtSend)
    case Send(_, reply) => SendEffect(door, d, reply)
    case Answer(_) => MoveTo(door, d, Answered(d.at.status))
    case Die(_) => MoveTo(door, d, Gone)
  }

  function Apply(s: State, i: nat, x: Effect): State
    requires i < |s.deliveries|
  {
    s.(door := x.door, deliveries := s.deliveries[i := x.d],
       claim := if s.claim == Some(i) && !Inside(x.d.at) then None else s.claim)
  }

  function ClaimStep(s: State, i: nat, connected: bool): State
    requires i < |s.deliveries| && s.deliveries[i].at.AtClaim?
  {
    var d := s.deliveries[i];
    if connected && s.claim.None? then
      s.(claim := if s.door.design.claims then Some(i) else None, deliveries := s.deliveries[i := d.(at := AtExisting)])
    else s.(deliveries := s.deliveries[i := d.(at := AtAnswer(TryAgain503))])
  }

  predicate DeliveryEvent(e: Event) {
    !e.Issue? && !e.Retire? && !e.Arrive? && !e.StartRead? && !e.ExpireKey? && !e.Claim?
  }

  function DeliveryStep(s: State, e: Event): State
    requires DeliveryEvent(e)
  {
    if e.i < |s.deliveries| && InTurn(s.deliveries[e.i], e) then Apply(s, e.i, Act(s.door, s.deliveries[e.i], e)) else s
  }

  /** The runtime: one run for a key in its window, and whatever leaves the window. */
  function RuntimeStep(s: State, e: Event): State {
    match e
    case StartRead(k) =>
      if k in s.door.queued && k !in s.window then s.(window := s.window + {k}, runs := s.runs + [k]) else s
    case ExpireKey(k) => if k in s.window then s.(window := s.window - {k}, expired := s.expired + [k]) else s
    case _ => s
  }

  /** One step; an event out of turn changes nothing. */
  function Step(s: State, e: Event): State {
    match e
    case Issue => if s.door.address.Unissued? then s.(door := s.door.(address := Live)) else s
    case Retire => if s.door.address.Live? then s.(door := s.door.(address := Retired)) else s
    case Arrive => s.(deliveries := s.deliveries + [Delivery(AtLookup, None, None)])
    case Claim(i, connected) =>
      if i < |s.deliveries| && s.deliveries[i].at.AtClaim? then ClaimStep(s, i, connected) else s
    case StartRead(_) => RuntimeStep(s, e)
    case ExpireKey(_) => RuntimeStep(s, e)
    case _ => DeliveryStep(s, e)
  }

  function Run(x: Design, events: seq<Event>): State {
    if events == [] then Init(x) else Step(Run(x, events[..|events| - 1]), events[|events| - 1])
  }

  lemma RunSnoc(x: Design, events: seq<Event>, e: Event)
    ensures Run(x, events + [e]) == Step(Run(x, events), e)
  {
    assert (events + [e])[..|events|] == events;
  }

  // -------------------------------------------------------------------------
  // What every run keeps
  // -------------------------------------------------------------------------

  predicate DeliveryInv(door: Door, d: Delivery) {
    (PastRecord(d.at) ==> d.message.Some? && d.message.value in door.received) &&
    (d.at == AtAnswer(Ok200) || d.at == Answered(Ok200) ==> door.design.keyIsRow && d.message.Some? ==> d.message.value in door.queued) &&
    (d.at == AtAnswer(Ok200) || d.at == Answered(Ok200) ==> door.queued != []) &&
    (d.at == AtAnswer(Refused403) || d.at == Answered(Refused403) ==> d.saw == Some(Unissued) || d.saw == Some(Retired)) &&
    (d.saw == Some(Unissued) ==> d.at == AtAnswer(Refused403) || d.at == Answered(Refused403) || d.at.Gone?) &&
    (d.at.AtRefuse? || d.at.AtRefuseInsert? ==> d.saw == Some(Retired)) &&
    (d.saw == Some(Retired) ==> door.address.Retired?) &&
    (d.saw == Some(Live) ==> !door.address.Unissued?) &&
    (d.at.AtMember? || d.at.AtClaim? || Inside(d.at) || d.at.AtSend? ==> d.saw == Some(Live))
  }

  predicate DoorInv(door: Door) {
    (door.design.claims || door.design.indexed ==> |door.received| <= 1) &&
    (door.design.indexed ==> |door.refused| <= 1) &&
    (door.design.keyIsRow ==> forall k :: k in door.queued ==> k in door.received) &&
    (door.queued != [] ==> door.received != []) &&
    (door.received != [] ==> !door.address.Unissued?)
  }

  /** With claims one delivery is inside. */
  predicate OneInside(claims: bool, claim: Option<nat>, deliveries: seq<Delivery>) {
    (!claims ==> claim.None?) && (claim.Some? ==> claim.value < |deliveries|) &&
    (claims ==> forall i: nat | i < |deliveries| :: Inside(deliveries[i].at) <==> claim == Some(i))
  }

  /** With claims, where one saw no row there is none. */
  predicate SeenIsSo(claims: bool, received: seq<nat>, deliveries: seq<Delivery>) {
    claims ==> forall i: nat | i < |deliveries| :: SawNoRow(deliveries[i].at) ==> received == []
  }

  predicate ClaimInv(s: State) {
    OneInside(s.door.design.claims, s.claim, s.deliveries) && SeenIsSo(s.door.design.claims, s.door.received, s.deliveries)
  }

  /** How often a key is in a log. */
  function Times(log: seq<nat>, k: nat): nat {
    if log == [] then 0 else Times(log[..|log| - 1], k) + if log[|log| - 1] == k then 1 else 0
  }

  lemma TimesSnoc(log: seq<nat>, j: nat)
    ensures forall k: nat :: Times(log + [j], k) == Times(log, k) + if j == k then 1 else 0
  {
    assert (log + [j])[..|log|] == log;
  }

  predicate Counted(window: set<nat>, expired: seq<nat>, runs: seq<nat>, k: nat) {
    Times(runs, k) == Times(expired, k) + (if k in window then 1 else 0)
  }

  /** A key's runs are its expiries and the one its window holds; none was started unqueued. */
  ghost predicate RuntimeInv(window: set<nat>, expired: seq<nat>, runs: seq<nat>, queued: seq<nat>) {
    (forall k: nat :: Counted(window, expired, runs, k)) && (forall k :: k in runs ==> k in queued)
  }

  ghost predicate Inv(s: State) {
    DoorInv(s.door) && ClaimInv(s) && RuntimeInv(s.window, s.expired, s.runs, s.door.queued) &&
    forall i: nat | i < |s.deliveries| :: DeliveryInv(s.door, s.deliveries[i])
  }

  /** What is durable stays. */
  predicate Grows(a: Door, b: Door) {
    a.design == b.design && a.received <= b.received && a.refused <= b.refused && a.queued <= b.queued &&
    (a.address == b.address || a.address.Unissued? || b.address.Retired?) && (!a.address.Unissued? ==> !b.address.Unissued?)
  }

  lemma ActKept(door: Door, d: Delivery, e: Event)
    requires InTurn(d, e) && DeliveryInv(door, d) && DoorInv(door)
    requires door.design.claims && SawNoRow(d.at) ==> door.received == []
    ensures var x := Act(door, d, e);
            DeliveryInv(x.door, x.d) && DoorInv(x.door) && Grows(door, x.door) && x.door.address == door.address &&
            (Inside(x.d.at) ==> Inside(d.at)) && (x.door.received != door.received ==> Inside(d.at) && !SawNoRow(x.d.at)) &&
            (SawNoRow(x.d.at) ==> x.door.received == [] || SawNoRow(d.at))
  {
    if e.Insert? {
      assert door.received + [door.nextId] != [];
    }
  }

  lemma OthersKept(a: Door, b: Door, d: Delivery)
    requires DeliveryInv(a, d) && Grows(a, b)
    ensures DeliveryInv(b, d)
  {
  }

  lemma DeliveryStepKept(s: State, e: Event)
    requires Inv(s) && DeliveryEvent(e)
    ensures Inv(DeliveryStep(s, e)) && Grows(s.door, DeliveryStep(s, e).door)
  {
    var t := DeliveryStep(s, e);
    if e.i < |s.deliveries| && InTurn(s.deliveries[e.i], e) {
      ActKept(s.door, s.deliveries[e.i], e);
      forall i: nat | i < |t.deliveries| ensures DeliveryInv(t.door, t.deliveries[i]) {
        if i != e.i { OthersKept(s.door, t.door, s.deliveries[i]); }
      }
      DeliveryStepKeepsClaim(s, e);
    }
  }

  lemma DeliveryStepKeepsClaim(s: State, e: Event)
    requires Inv(s) && DeliveryEvent(e) && e.i < |s.deliveries| && InTurn(s.deliveries[e.i], e)
    ensures ClaimInv(DeliveryStep(s, e))
  {
    ActKept(s.door, s.deliveries[e.i], e);
    ApplyKeepsClaim(s, e.i, Act(s.door, s.deliveries[e.i], e));
  }

  lemma ApplyKeepsClaim(s: State, i: nat, x: Effect)
    requires ClaimInv(s) && i < |s.deliveries| && x.door.design == s.door.design
    requires Inside(x.d.at) ==> Inside(s.deliveries[i].at)
    requires x.door.received != s.door.received ==> Inside(s.deliveries[i].at) && !SawNoRow(x.d.at)
    requires SawNoRow(x.d.at) ==> x.door.received == [] || SawNoRow(s.deliveries[i].at)
    ensures ClaimInv(Apply(s, i, x))
  {
  }

  lemma RuntimeStepKept(s: State, e: Event)
    requires Inv(s) && (e.StartRead? || e.ExpireKey?)
    ensures Inv(RuntimeStep(s, e))
  {
    var t := RuntimeStep(s, e);
    TimesSnoc(s.runs, e.key);
    TimesSnoc(s.expired, e.key);
    forall k: nat ensures Counted(t.window, t.expired, t.runs, k) { assert Counted(s.window, s.expired, s.runs, k); }
  }

  lemma QueueStepKept(s: State, e: Event)
    requires Inv(s) && (e.Issue? || e.Retire? || e.Arrive? || e.Claim?)
    ensures Inv(Step(s, e)) && Grows(s.door, Step(s, e).door)
  {
    var t := Step(s, e);
    forall i: nat | i < |t.deliveries| ensures DeliveryInv(t.door, t.deliveries[i]) {
      if i < |s.deliveries| { OthersKept(s.door, t.door, s.deliveries[i]); }
    }
    QueueStepKeepsClaim(s, e);
  }

  lemma QueueStepKeepsClaim(s: State, e: Event)
    requires ClaimInv(s) && (e.Issue? || e.Retire? || e.Arrive? || e.Claim?)
    ensures ClaimInv(Step(s, e))
  {
  }

  lemma StepKept(s: State, e: Event)
    requires Inv(s)
    ensures Inv(Step(s, e)) && Step(s, e).door.design == s.door.design
  {
    if DeliveryEvent(e) { DeliveryStepKept(s, e); }
    else if e.StartRead? || e.ExpireKey? { RuntimeStepKept(s, e); }
    else { QueueStepKept(s, e); }
  }

  lemma {:induction false} EveryRunKeeps(x: Design, events: seq<Event>)
    ensures Inv(Run(x, events)) && Run(x, events).door.design == x
  {
    if events != [] {
      EveryRunKeeps(x, events[..|events| - 1]);
      StepKept(Run(x, events[..|events| - 1]), events[|events| - 1]);
    }
  }

  // -------------------------------------------------------------------------
  // What each answer means
  // -------------------------------------------------------------------------

  /** 200 is answered only with exactly one record of the message durable and a read queued under its id. */
  lemma AcknowledgedIsRecordedAndQueued(events: seq<Event>, i: nat)
    requires i < |Run(AS_BUILT, events).deliveries| && Run(AS_BUILT, events).deliveries[i].at == Answered(Ok200)
    ensures var s := Run(AS_BUILT, events);
            s.deliveries[i].message.Some? && s.door.received == [s.deliveries[i].message.value] &&
            s.deliveries[i].message.value in s.door.queued
  {
    EveryRunKeeps(AS_BUILT, events);
    var s := Run(AS_BUILT, events);
    OneRowAnswered(s.door, s.deliveries[i]);
  }

  lemma OneRowAnswered(door: Door, d: Delivery)
    requires DoorInv(door) && DeliveryInv(door, d) && door.design == AS_BUILT && d.at == Answered(Ok200)
    ensures d.message.Some? && door.received == [d.message.value] && d.message.value in door.queued
  {
  }

  /** Every read event of the message carries the one row's id as its key, whichever delivery sent it. */
  lemma EveryKeyIsTheRow(events: seq<Event>, j: nat, k: nat)
    requires j < |Run(AS_BUILT, events).door.queued| && k < |Run(AS_BUILT, events).door.queued|
    ensures var door := Run(AS_BUILT, events).door; door.queued[j] == door.queued[k] && door.received == [door.queued[j]]
  {
    EveryRunKeeps(AS_BUILT, events);
    OneRowKeys(Run(AS_BUILT, events).door, j, k);
  }

  lemma OneRowKeys(door: Door, j: nat, k: nat)
    requires DoorInv(door) && door.design == AS_BUILT && j < |door.queued| && k < |door.queued|
    ensures door.queued[j] == door.queued[k] && door.received == [door.queued[j]]
  {
    assert door.queued[j] in door.queued && door.queued[k] in door.queued;
  }

  /** Where every queued key is the one row's id, so is every run's, and they are counted by its expiries. */
  predicate RunsOfOneRow(window: set<nat>, expired: seq<nat>, runs: seq<nat>, received: seq<nat>) {
    runs == [] ||
    (|received| == 1 && (forall k :: k in runs ==> k == received[0]) &&
     |runs| == Times(expired, received[0]) + if received[0] in window then 1 else 0)
  }

  lemma OneRowsRuns(window: set<nat>, expired: seq<nat>, runs: seq<nat>, queued: seq<nat>, received: seq<nat>)
    requires RuntimeInv(window, expired, runs, queued) && |received| <= 1 && forall k :: k in queued ==> k in received
    ensures RunsOfOneRow(window, expired, runs, received)
  {
    if runs != [] {
      assert runs[0] in runs;
      var id := received[0];
      forall i | 0 <= i < |runs| ensures runs[i] == id { assert runs[i] in runs && runs[i] in received; }
      AllTheSame(runs, id);
      assert Counted(window, expired, runs, id);
    }
  }

  /**
   The message's runs are all its row's: one for the key in the window, one for every time it left
   it, and none under any other key.
   */
  lemma ReadRunsExactly(x: Design, events: seq<Event>)
    requires x.keyIsRow && (x.claims || x.indexed)
    ensures var s := Run(x, events); RunsOfOneRow(s.window, s.expired, s.runs, s.door.received)
  {
    EveryRunKeeps(x, events);
    var s := Run(x, events);
    OneRowsRuns(s.window, s.expired, s.runs, s.door.queued, s.door.received);
  }

  lemma {:induction false} AllTheSame(log: seq<nat>, id: nat)
    requires forall i :: 0 <= i < |log| ==> log[i] == id
    ensures Times(log, id) == |log|
  {
    if log != [] { AllTheSame(log[..|log| - 1], id); }
  }

  predicate KeysStay(events: seq<Event>) {
    forall k :: 0 <= k < |events| ==> !events[k].ExpireKey?
  }

  lemma {:induction false} NothingExpires(x: Design, events: seq<Event>)
    requires KeysStay(events)
    ensures Run(x, events).expired == []
  {
    if events != [] {
      assert !events[|events| - 1].ExpireKey?;
      NothingExpires(x, events[..|events| - 1]);
    }
  }

  /** While keys stay in the window redeliveries start at most one read run, where one row gives every key. */
  lemma OneReadRunInTheWindow(x: Design, events: seq<Event>)
    requires KeysStay(events) && x.keyIsRow && (x.claims || x.indexed)
    ensures |Run(x, events).runs| <= 1
  {
    ReadRunsExactly(x, events);
    NothingExpires(x, events);
  }

  /**
   403 while the address is live goes out exactly when the address was issued after a lookup that
   did not find it; in particular a delivery whose lookup found the address live is never refused.
   */
  lemma RefusedWhileLiveExactly(x: Design, events: seq<Event>, i: nat)
    requires i < |Run(x, events).deliveries| && Run(x, events).door.address.Live?
    requires var at := Run(x, events).deliveries[i].at; at.Answered? || at.AtAnswer?
    ensures var d := Run(x, events).deliveries[i];
            d.at.status.Refused403? <==> d.saw == Some(Unissued)
  {
    EveryRunKeeps(x, events);
    assert DeliveryInv(Run(x, events).door, Run(x, events).deliveries[i]);
  }

  /** Two deliveries are never inside the message's claim together. */
  lemma OneDeliveryIngests(events: seq<Event>, i: nat, j: nat)
    requires var ds := Run(AS_BUILT, events).deliveries; i < |ds| && j < |ds| && Inside(ds[i].at) && Inside(ds[j].at)
    ensures i == j
  {
    EveryRunKeeps(AS_BUILT, events);
  }

  /** Each state is a step from the one before. */
  predicate Linked(states: seq<State>, events: seq<Event>) {
    |states| == |events| + 1 && forall k: nat | k < |events| :: Step(states[k], events[k]) == states[k + 1]
  }

  lemma LinkedUpToLast(states: seq<State>, events: seq<Event>)
    requires Linked(states, events) && events != []
    ensures var n := |events| - 1;
            Linked(states[..n + 1], events[..n]) && Step(states[n], events[n]) == states[n + 1]
  {
  }

  lemma {:induction false} RunThrough(x: Design, events: seq<Event>, more: seq<Event>, states: seq<State>)
    requires Linked(states, more) && states[0] == Run(x, events)
    ensures Run(x, events + more) == states[|more|]
    decreases |more|
  {
    if more == [] {
      assert events + more == events;
    } else {
      var n := |more| - 1;
      LinkedUpToLast(states, more);
      RunThrough(x, events, more[..n], states[..n + 1]);
      assert events + more == events + more[..n] + [more[n]];
      RunSnoc(x, events + more[..n], more[n]);
    }
  }

  /** Such a delivery: the token is issued between the lookup that misses it and the answer. */
  lemma RefusedWhileLive()
    ensures var s := Run(AS_BUILT, [Arrive, Lookup(0, true), Issue, Answer(0)]);
            s.door.address.Live? && |s.deliveries| == 1 && s.deliveries[0].at == Answered(Refused403)
  {
    var s1 := Init(AS_BUILT).(deliveries := [Delivery(AtLookup, None, None)]);
    var s2 := s1.(deliveries := [Delivery(AtAnswer(Refused403), Some(Unissued), None)]);
    var s3 := s2.(door := s2.door.(address := Live));
    var s4 := s3.(deliveries := [Delivery(Answered(Refused403), Some(Unissued), None)]);
    var events := [Arrive, Lookup(0, true), Issue, Answer(0)];
    RunThrough(AS_BUILT, [], events, [Init(AS_BUILT), s1, s2, s3, s4]);
    assert [] + events == events;
  }
}
