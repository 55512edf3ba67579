/**
 One firing of a scheduled fan-out (`ledgerFanOutSteps`, `portalFanOutSteps`): a memoised step that
 lists the connections and mints a key for each, a step that sends the batch, and the runtime that
 starts one run for each key in its window. A step may run any number of times: its result is
 memoised only when the attempt lives to return it, and a send that fails or is lost may have
 delivered any part of its batch.
 */
module FanOut {

  datatype Option<+T> = None | Some(value: T)

  datatype Request = Request(connection: nat, key: nat)

  /** What would undo the memoised keys: minting them where they are sent, or a window too short. */
  datatype Faults = Faults(mintsInSend: bool, keysExpire: bool)

  datatype State = State(
    memo: Option<seq<Request>>,
    batches: seq<seq<Request>>,
    queue: set<Request>,
    window: set<nat>,
    runs: seq<Request>,
    nextKey: nat,
    sent: bool)

  /** `Send(None)` returned; `Send(Some(taken))` did not, with those positions of the batch accepted. */
  datatype Event =
    | List(connections: seq<nat>, memoised: bool)
    | Send(taken: Option<set<nat>>)
    | Start(r: Request)
    | Expire(key: nat)

  predicate Distinct(connections: seq<nat>) {
    forall i, j :: 0 <= i < j < |connections| ==> connections[i] != connections[j]
  }

  /** One fresh key for each connection. */
  function Mint(connections: seq<nat>, nextKey: nat): (batch: seq<Request>)
    ensures |batch| == |connections|
    ensures forall i :: 0 <= i < |batch| ==> batch[i] == Request(connections[i], nextKey + i)
  {
    seq(|connections|, i requires 0 <= i < |connections| => Request(connections[i], nextKey + i))
  }

  function ConnectionsOf(batch: seq<Request>): (connections: seq<nat>)
    ensures |connections| == |batch| && forall i :: 0 <= i < |batch| ==> connections[i] == batch[i].connection
  {
    seq(|batch|, i requires 0 <= i < |batch| => batch[i].connection)
  }

  function Init(): State {
    State(None, [], {}, {}, [], 0, false)
  }

  function Taken(batch: seq<Request>, taken: Option<set<nat>>): set<Request> {
    set i: nat | i < |batch| && (taken.None? || i in taken.value) :: batch[i]
  }

  function ListStep(s: State, connections: seq<nat>, memoised: bool): State {
    var batch := Mint(connections, s.nextKey);
    s.(nextKey := s.nextKey + |connections|, memo := if memoised then Some(batch) else None)
  }

  function SendStep(f: Faults, s: State, taken: Option<set<nat>>): State
    requires s.memo.Some?
  {
    var batch := if f.mintsInSend then Mint(ConnectionsOf(s.memo.value), s.nextKey) else s.memo.value;
    s.(batches := s.batches + [batch], queue := s.queue + Taken(batch, taken), sent := taken.None?,
       nextKey := s.nextKey + |batch|)
  }

  /** One step; an event out of turn, and an expiry the faults do not allow, changes nothing. */
  function Step(f: Faults, s: State, e: Event): State {
    match e
    case List(connections, memoised) =>
      if s.memo.None? && Distinct(connections) then ListStep(s, connections, memoised) else s
    case Send(taken) => if s.memo.Some? && s.memo.value != [] && !s.sent then SendStep(f, s, taken) else s
    case Start(r) =>
      if r in s.queue && r.key !in s.window then s.(window := s.window + {r.key}, runs := s.runs + [r]) else s
    case Expire(k) => if f.keysExpire then s.(window := s.window - {k}) else s
  }

  function Run(f: Faults, events: seq<Event>): State {
    if events == [] then Init() else Step(f, Run(f, events[..|events| - 1]), events[|events| - 1])
  }

  // -------------------------------------------------------------------------
  // What every run keeps
  // -------------------------------------------------------------------------

  /** A batch as the listing step mints it. */
  predicate Minted(batch: seq<Request>, nextKey: nat) {
    (forall i, j :: 0 <= i < j < |batch| ==> batch[i].connection != batch[j].connection && batch[i].key != batch[j].key) &&
    (forall i :: 0 <= i < |batch| ==> batch[i].key < nextKey)
  }

  /** Memoised keys: every batch is the memo, what is queued is part of it, what runs was queued. */
  predicate MemoInv(s: State) {
    (s.memo.None? ==> s.batches == [] && s.queue == {} && s.runs == [] && !s.sent) &&
    (s.memo.Some? ==>
      Minted(s.memo.value, s.nextKey) &&
      (forall b :: b in s.batches ==> b == s.memo.value) &&
      (forall r :: r in s.queue ==> r in s.memo.value) &&
      (s.sent ==> forall r :: r in s.memo.value ==> r in s.queue)) &&
    (forall r :: r in s.runs ==> r in s.queue)
  }

  lemma MemoStepKept(f: Faults, s: State, e: Event)
    requires MemoInv(s) && !f.mintsInSend
    ensures MemoInv(Step(f, s, e))
    ensures s.memo.Some? ==> Step(f, s, e).memo == s.memo
  {
    if e.Send? && s.memo.Some? {
      var batch := s.memo.value;
      forall r | r in batch && e.taken.None? ensures r in Taken(batch, e.taken) {
        var i :| 0 <= i < |batch| && batch[i] == r;
      }
    }
  }

  lemma {:induction false} EveryRunKeepsMemo(f: Faults, events: seq<Event>)
    requires !f.mintsInSend
    ensures MemoInv(Run(f, events))
  {
    if events != [] {
      EveryRunKeepsMemo(f, events[..|events| - 1]);
      MemoStepKept(f, Run(f, events[..|events| - 1]), events[|events| - 1]);
    }
  }

  /** Every batch one firing sends carries the same keys, one for each listed connection. */
  lemma EveryBatchIsTheSame(f: Faults, events: seq<Event>, i: nat, j: nat)
    requires !f.mintsInSend && i < |Run(f, events).batches| && j < |Run(f, events).batches|
    ensures var b := Run(f, events).batches; b[i] == b[j] && Distinct(ConnectionsOf(b[i]))
  {
    EveryRunKeepsMemo(f, events);
    var s := Run(f, events);
    assert s.batches[i] in s.batches && s.batches[j] in s.batches;
  }

  /** No connection has two runs. */
  predicate AtMostOnce(runs: seq<Request>) {
    forall i, j :: 0 <= i < j < |runs| ==> runs[i].connection != runs[j].connection
  }

  /** Without expiries, a key in the window has had exactly one run. */
  predicate WindowInv(s: State) {
    (forall r :: r in s.runs ==> r.key in s.window) &&
    (forall i, j :: 0 <= i < j < |s.runs| ==> s.runs[i].key != s.runs[j].key)
  }

  lemma {:induction false} EveryRunKeepsWindow(f: Faults, events: seq<Event>)
    requires !f.keysExpire
    ensures WindowInv(Run(f, events))
  {
    if events != [] {
      EveryRunKeepsWindow(f, events[..|events| - 1]);
    }
  }

  lemma DistinctKeysDistinctConnections(s: State)
    requires MemoInv(s) && WindowInv(s)
    ensures AtMostOnce(s.runs)
  {
    forall i, j | 0 <= i < j < |s.runs| ensures s.runs[i].connection != s.runs[j].connection {
      assert s.runs[i] in s.runs && s.runs[j] in s.runs;
      var memo := s.memo.value;
      var a :| 0 <= a < |memo| && memo[a] == s.runs[i];
      var b :| 0 <= b < |memo| && memo[b] == s.runs[j];
    }
  }

  /** Every accepted request has been taken up by the runtime. */
  predicate Drained(s: State) {
    forall r :: r in s.queue ==> r.key in s.window
  }

  /** A key in the window is there because its request was run. */
  predicate WindowIsRun(s: State) {
    forall k :: k in s.window ==> exists i :: 0 <= i < |s.runs| && s.runs[i].key == k
  }

  lemma {:induction false} EveryRunKeepsWindowRun(f: Faults, events: seq<Event>)
    ensures WindowIsRun(Run(f, events))
  {
    if events != [] {
      var s := Run(f, events[..|events| - 1]);
      EveryRunKeepsWindowRun(f, events[..|events| - 1]);
      var t := Run(f, events);
      forall k | k in t.window ensures exists i :: 0 <= i < |t.runs| && t.runs[i].key == k {
        if k in s.window {
          var i :| 0 <= i < |s.runs| && s.runs[i].key == k;
          assert t.runs[i].key == k;
        } else {
          assert t.runs[|t.runs| - 1].key == k;
        }
      }
    }
  }

  // -------------------------------------------------------------------------
  // The listing a firing goes by
  // -------------------------------------------------------------------------

  /** The listing step returns with these connections, no two the same. */
  predicate Lists(e: Event, connections: seq<nat>) {
    e == List(connections, true) && forall i, j :: 0 <= i < j < |connections| ==> connections[i] != connections[j]
  }

  /** The first listing to return, at step `k`. */
  predicate FirstListing(events: seq<Event>, k: nat, connections: seq<nat>) {
    k < |events| && Lists(events[k], connections) &&
    forall j: nat | j < k :: !(events[j].List? && Lists(events[j], events[j].connections))
  }

  /** The memo is these connections in order, each with a key of its own. */
  predicate MemoOf(memo: Option<seq<Request>>, connections: seq<nat>) {
    memo.Some? && |memo.value| == |connections| &&
    (forall i :: 0 <= i < |connections| ==> memo.value[i].connection == connections[i]) &&
    (forall i, j :: 0 <= i < j < |connections| ==> memo.value[i].key != memo.value[j].key)
  }

  lemma ListsStep(f: Faults, s: State, e: Event)
    ensures var t := Step(f, s, e);
            if s.memo.None? && e.List? && Lists(e, e.connections) then MemoOf(t.memo, e.connections) else t.memo == s.memo
  {
  }

  /** Whatever fails, a firing's memo is the connections of the first listing that returned, and there is none before it. */
  lemma {:induction false} MemoIsTheFirstListing(f: Faults, events: seq<Event>)
    ensures Run(f, events).memo.Some? ==> exists k: nat, connections :: FirstListing(events, k, connections)
    ensures forall k: nat, connections :: FirstListing(events, k, connections) ==> MemoOf(Run(f, events).memo, connections)
  {
    if events != [] {
      var (before, e) := (events[..|events| - 1], events[|events| - 1]);
      MemoIsTheFirstListing(f, before);
      ListsStep(f, Run(f, before), e);
      if Run(f, before).memo.Some? {
        var k: nat, connections :| FirstListing(before, k, connections);
        assert FirstListing(events, k, connections);
      } else {
        if e.List? && Lists(e, e.connections) {
          NoListingYet(f, before);
          assert FirstListing(events, |before|, e.connections);
        }
      }
      forall k: nat, connections | FirstListing(events, k, connections) ensures MemoOf(Run(f, events).memo, connections) {
        if k < |before| { assert FirstListing(before, k, connections); } else { NoMemoYet(f, before); }
      }
    }
  }

  /** Without a memo no listing has returned. */
  lemma {:induction false} NoListingYet(f: Faults, events: seq<Event>)
    requires Run(f, events).memo.None?
    ensures forall j: nat | j < |events| :: !(events[j].List? && Lists(events[j], events[j].connections))
  {
    if events != [] {
      ListsStep(f, Run(f, events[..|events| - 1]), events[|events| - 1]);
      NoListingYet(f, events[..|events| - 1]);
    }
  }

  /** Without a listing there is no memo. */
  lemma {:induction false} NoMemoYet(f: Faults, events: seq<Event>)
    requires forall j: nat | j < |events| :: !(events[j].List? && Lists(events[j], events[j].connections))
    ensures Run(f, events).memo.None?
  {
    if events != [] {
      ListsStep(f, Run(f, events[..|events| - 1]), events[|events| - 1]);
      NoMemoYet(f, events[..|events| - 1]);
    }
  }

  /**
   Once the sending step has returned and the runtime has taken up what was sent, every connection of
   the listing has had exactly one run, and nothing else has.
   */
  lemma CompletedSyncsEachOnce(events: seq<Event>, k: nat, connections: seq<nat>, c: nat)
    requires FirstListing(events, k, connections)
    requires var s := Run(Faults(false, false), events); s.sent && Drained(s)
    ensures var runs := Run(Faults(false, false), events).runs;
            (c in connections <==> exists i :: 0 <= i < |runs| && runs[i].connection == c) &&
            forall i, j :: 0 <= i < j < |runs| ==> runs[i].connection != runs[j].connection
  {
    MemoIsTheFirstListing(Faults(false, false), events);
    CompletedRunsTheMemo(events, c);
    var memo := Run(Faults(false, false), events).memo.value;
    if c in connections {
      var i :| 0 <= i < |connections| && connections[i] == c;
      assert ConnectionsOf(memo)[i] == c;
    }
  }

  lemma CompletedRunsTheMemo(events: seq<Event>, c: nat)
    requires var s := Run(Faults(false, false), events); s.sent && Drained(s)
    ensures var s := Run(Faults(false, false), events);
            AtMostOnce(s.runs) && s.memo.Some? &&
            ((exists i :: 0 <= i < |s.runs| && s.runs[i].connection == c) <==> c in ConnectionsOf(s.memo.value))
  {
    var f := Faults(false, false);
    EveryRunKeepsMemo(f, events);
    EveryRunKeepsWindow(f, events);
    EveryRunKeepsWindowRun(f, events);
    var s := Run(f, events);
    DistinctKeysDistinctConnections(s);
    var memo := s.memo.value;
    if c in ConnectionsOf(memo) {
      var a :| 0 <= a < |memo| && ConnectionsOf(memo)[a] == c;
      assert memo[a] in memo && memo[a] in s.queue;
      var i :| 0 <= i < |s.runs| && s.runs[i].key == memo[a].key;
      assert s.runs[i] in s.runs;
      var b :| 0 <= b < |memo| && memo[b] == s.runs[i];
    }
    if i :| 0 <= i < |s.runs| && s.runs[i].connection == c {
      assert s.runs[i] in s.runs;
      var b :| 0 <= b < |memo| && memo[b] == s.runs[i];
      assert ConnectionsOf(memo)[b] == c;
    }
  }

  lemma SentStep(f: Faults, s: State, e: Event)
    requires s.memo.Some? && (s.sent || s.memo.value == [])
    ensures var t := Step(f, s, e); t.sent == s.sent && t.memo == s.memo && t.batches == s.batches && t.queue == s.queue
  {
  }

  /** Once the sending step has returned, or where the listing was empty, nothing more is sent. */
  lemma {:induction false} SentOnce(f: Faults, events: seq<Event>, more: seq<Event>)
    requires var s := Run(f, events); s.memo.Some? && (s.sent || s.memo.value == [])
    ensures var (s, t) := (Run(f, events), Run(f, events + more));
            t.sent == s.sent && t.memo == s.memo && t.batches == s.batches && t.queue == s.queue
  {
    if more == [] {
      assert events + more == events;
    } else {
      var n := |more| - 1;
      SentOnce(f, events, more[..n]);
      assert events + more == events + more[..n] + [more[n]];
      RunSnoc(f, events + more[..n], more[n]);
      SentStep(f, Run(f, events + more[..n]), more[n]);
    }
  }

  // -------------------------------------------------------------------------
  // A firing completes
  // -------------------------------------------------------------------------

  function Starts(batch: seq<Request>): seq<Event> {
    seq(|batch|, i requires 0 <= i < |batch| => Start(batch[i]))
  }

  lemma RunSnoc(f: Faults, events: seq<Event>, e: Event)
    ensures Run(f, events + [e]) == Step(f, Run(f, events), e)
  {
    assert (events + [e])[..|events|] == events;
  }

  /** Whatever was lost before, once a send returns its step is done and every request of the memo is accepted. */
  lemma SendingReturns(events: seq<Event>)
    requires var s := Run(Faults(false, false), events); s.memo.Some? && s.memo.value != [] && !s.sent
    ensures var t := Run(Faults(false, false), events + [Send(None)]);
            t.sent && t.memo == Run(Faults(false, false), events).memo && forall r :: r in t.memo.value ==> r in t.queue
  {
    RunSnoc(Faults(false, false), events, Send(None));
    EveryRunKeepsMemo(Faults(false, false), events + [Send(None)]);
  }

  /** The first `n` requests taken up. */
  lemma {:induction false} Started(events: seq<Event>, batch: seq<Request>)
    requires var s := Run(Faults(false, false), events); s.sent && s.memo.Some? && forall r :: r in batch ==> r in s.queue
    ensures var (s, t) := (Run(Faults(false, false), events), Run(Faults(false, false), events + Starts(batch)));
            t.sent && t.memo == s.memo && t.queue == s.queue && s.window <= t.window && forall r :: r in batch ==> r.key in t.window
  {
    if batch == [] {
      assert events + Starts(batch) == events;
    } else {
      var (init, last) := (batch[..|batch| - 1], batch[|batch| - 1]);
      Started(events, init);
      assert events + Starts(batch) == events + Starts(init) + [Start(last)];
      RunSnoc(Faults(false, false), events + Starts(init), Start(last));
      assert batch == init + [last];
    }
  }

  /**
   However often its steps were lost, a firing whose listing has returned completes: one answered send,
   and a start for each request, leave every listed connection with its one run.
   */
  lemma FiringCompletes(events: seq<Event>, k: nat, connections: seq<nat>, c: nat)
    requires FirstListing(events, k, connections) && connections != [] && !Run(Faults(false, false), events).sent
    ensures var memo := Run(Faults(false, false), events).memo;
            memo.Some? &&
            var runs := Run(Faults(false, false), events + [Send(None)] + Starts(memo.value)).runs;
            (c in connections <==> exists i :: 0 <= i < |runs| && runs[i].connection == c) &&
            forall i, j :: 0 <= i < j < |runs| ==> runs[i].connection != runs[j].connection
  {
    var f := Faults(false, false);
    MemoIsTheFirstListing(f, events);
    SendingReturns(events);
    var memo := Run(f, events).memo.value;
    Started(events + [Send(None)], memo);
    var all := events + [Send(None)] + Starts(memo);
    EveryRunKeepsMemo(f, all);
    assert FirstListing(all, k, connections);
    CompletedSyncsEachOnce(all, k, connections, c);
  }

  // -------------------------------------------------------------------------
  // Why the keys are minted in the listing step
  // -------------------------------------------------------------------------

  /** The steps from one state to the last of a list of states. */
  lemma {:induction false} RunThrough(f: Faults, events: seq<Event>, states: seq<State>)
    requires |states| == |events| + 1 && states[0] == Init()
    requires forall k: nat | k < |events| :: Step(f, states[k], events[k]) == states[k + 1]
    ensures Run(f, events) == states[|events|]
  {
    if events != [] {
      RunThrough(f, events[..|events| - 1], states[..|states| - 1]);
    }
  }

  lemma OneMinted(key: nat, taken: Option<set<nat>>)
    requires taken.None? || taken.value == {0}
    ensures Mint([5], key) == [Request(5, key)] && ConnectionsOf([Request(5, key)]) == [5]
    ensures Taken([Request(5, key)], taken) == {Request(5, key)}
  {
    assert [Request(5, key)][0] in Taken([Request(5, key)], taken);
  }

  /** A send that delivers and is lost, then a send that returns, each batch run as it arrives. */
  lemma MintingInSendSyncsTwice(keysExpire: bool)
    ensures exists events :: !AtMostOnce(Run(Faults(true, keysExpire), events).runs)
  {
    OneMinted(0, None);
    OneMinted(1, Some({0}));
    OneMinted(2, None);
    var events := [List([5], true), Send(Some({0})), Start(Request(5, 1)), Send(None), Start(Request(5, 2))];
    var s1 := State(Some([Request(5, 0)]), [], {}, {}, [], 1, false);
    var s2 := s1.(batches := [[Request(5, 1)]], queue := {Request(5, 1)}, nextKey := 2);
    var s3 := s2.(window := {1}, runs := [Request(5, 1)]);
    var s4 := s3.(batches := [[Request(5, 1)], [Request(5, 2)]], queue := {Request(5, 1), Request(5, 2)}, nextKey := 3, sent := true);
    var s5 := s4.(window := {1, 2}, runs := [Request(5, 1), Request(5, 2)]);
    RunThrough(Faults(true, keysExpire), events, [Init(), s1, s2, s3, s4, s5]);
    assert s5.runs[0].connection == s5.runs[1].connection;
  }

  /** A send that delivers twice, the second time once its key has left the window. */
  lemma ExpirySyncsTwice()
    ensures exists events :: !AtMostOnce(Run(Faults(false, true), events).runs)
  {
    OneMinted(0, Some({0}));
    var events := [List([5], true), Send(Some({0})), Start(Request(5, 0)), Expire(0), Start(Request(5, 0))];
    var s1 := State(Some([Request(5, 0)]), [], {}, {}, [], 1, false);
    var s2 := s1.(batches := [[Request(5, 0)]], queue := {Request(5, 0)}, nextKey := 2);
    var s3 := s2.(window := {0}, runs := [Request(5, 0)]);
    var s4 := s3.(window := {});
    var s5 := s4.(window := {0}, runs := [Request(5, 0), Request(5, 0)]);
    RunThrough(Faults(false, true), events, [Init(), s1, s2, s3, s4, s5]);
    assert s5.runs[0].connection == s5.runs[1].connection;
  }

  /**
   Under every crash and retry each listed connection is run at most once in a firing, exactly
   when the keys are minted in the memoised listing step and outlive the retries.
   */
  lemma AtMostOnceExactly(f: Faults)
    ensures (forall events :: AtMostOnce(Run(f, events).runs)) <==> f == Faults(false, false)
  {
    if f == Faults(false, false) {
      forall events ensures AtMostOnce(Run(f, events).runs) {
        EveryRunKeepsMemo(f, events);
        EveryRunKeepsWindow(f, events);
        DistinctKeysDistinctConnections(Run(f, events));
      }
    } else if f.mintsInSend {
      MintingInSendSyncsTwice(f.keysExpire);
    } else {
      ExpirySyncsTwice();
    }
  }
}
