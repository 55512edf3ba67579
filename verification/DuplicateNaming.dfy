/**
 The backfill that names recorded duplicates (`link-duplicates`): it asks the store for a page of
 unnamed matches, skips those refused before, tries the rest in order, and asks again until a page
 has nothing to try. The store lists at most a hundred, oldest first.
 */
module DuplicateNaming {

  /** One match a `case.discovered` event recorded; the event is on one case. */
  datatype Match = Match(event: nat, of: nat)

  /** Two cases in either order. */
  datatype Pair = Pair(low: nat, high: nat)

  /** What one call came to; `Threw` is a refusal, or a naming whose reply was lost. */
  datatype Outcome = Named | AlreadyNamed | Threw

  const PAGE := 100

  function PairOf(m: Match, caseOf: nat -> nat): Pair {
    var on := caseOf(m.event);
    if on <= m.of then Pair(on, m.of) else Pair(m.of, on)
  }

  /** Two matches are of one pair exactly when they are between the same two cases, whichever way round. */
  lemma PairsAlike(a: Match, b: Match, caseOf: nat -> nat)
    ensures PairOf(a, caseOf) == PairOf(b, caseOf) <==> {caseOf(a.event), a.of} == {caseOf(b.event), b.of}
  {
    var (x, y) := ({caseOf(a.event), a.of}, {caseOf(b.event), b.of});
    assert caseOf(a.event) in x && a.of in x && caseOf(b.event) in y && b.of in y;
    if PairOf(a, caseOf) == PairOf(b, caseOf) { assert x == {PairOf(a, caseOf).low, PairOf(a, caseOf).high} == y; }
  }

  // -------------------------------------------------------------------------
  // What the store lists
  // -------------------------------------------------------------------------

  /** The matches no event names in either direction, in the listing's order. */
  function Unnamed(matches: seq<Match>, named: set<Pair>, caseOf: nat -> nat): seq<Match> {
    if matches == [] then []
    else
      var last := matches[|matches| - 1];
      Unnamed(matches[..|matches| - 1], named, caseOf) + if PairOf(last, caseOf) in named then [] else [last]
  }

  /** `unnamedProbablePairs`. */
  function ListedPage(matches: seq<Match>, named: set<Pair>, caseOf: nat -> nat): seq<Match> {
    var unnamed := Unnamed(matches, named, caseOf);
    if |unnamed| <= PAGE then unnamed else unnamed[..PAGE]
  }

  /** The page without the matches refused before. */
  function Untried(page: seq<Match>, failed: set<Match>): seq<Match> {
    if page == [] then []
    else
      var last := page[|page| - 1];
      Untried(page[..|page| - 1], failed) + if last in failed then [] else [last]
  }

  lemma {:induction false} UnnamedExactly(matches: seq<Match>, named: set<Pair>, caseOf: nat -> nat)
    ensures forall m :: m in Unnamed(matches, named, caseOf) <==> m in matches && PairOf(m, caseOf) !in named
  {
    if matches != [] {
      UnnamedExactly(matches[..|matches| - 1], named, caseOf);
      assert matches == matches[..|matches| - 1] + [matches[|matches| - 1]];
    }
  }

  /** The pairs that these matches name. */
  function PairsOf(matches: set<Match>, caseOf: nat -> nat): set<Pair> {
    set m | m in matches :: PairOf(m, caseOf)
  }

  /** In terms of cases: a match is listed while no match between the same two cases, either way round, is named. */
  lemma ListedByCases(matches: seq<Match>, done: set<Match>, caseOf: nat -> nat, m: Match)
    ensures m in Unnamed(matches, PairsOf(done, caseOf), caseOf) <==>
            m in matches && forall n :: n in done ==> {caseOf(n.event), n.of} != {caseOf(m.event), m.of}
  {
    UnnamedExactly(matches, PairsOf(done, caseOf), caseOf);
    forall n | n in done ensures PairOf(n, caseOf) == PairOf(m, caseOf) <==> {caseOf(n.event), n.of} == {caseOf(m.event), m.of} {
      PairsAlike(n, m, caseOf);
    }
  }

  /** A page is the first hundred of what is unnamed, or all of it. */
  lemma PageIsAHundred(matches: seq<Match>, named: set<Pair>, caseOf: nat -> nat)
    ensures var (page, unnamed) := (ListedPage(matches, named, caseOf), Unnamed(matches, named, caseOf));
            |page| == (if |unnamed| < 100 then |unnamed| else 100) && page <= unnamed
  {
  }

  lemma {:induction false} UntriedExactly(page: seq<Match>, failed: set<Match>)
    ensures forall m :: m in Untried(page, failed) <==> m in page && m !in failed
  {
    if page != [] {
      UntriedExactly(page[..|page| - 1], failed);
      assert page == page[..|page| - 1] + [page[|page| - 1]];
    }
  }

  predicate NoRepeat(matches: seq<Match>) {
    forall i, j :: 0 <= i < j < |matches| ==> matches[i] != matches[j]
  }

  lemma {:induction false} UnnamedNoRepeat(matches: seq<Match>, named: set<Pair>, caseOf: nat -> nat)
    requires NoRepeat(matches)
    ensures NoRepeat(Unnamed(matches, named, caseOf))
  {
    if matches != [] {
      UnnamedNoRepeat(matches[..|matches| - 1], named, caseOf);
      UnnamedExactly(matches[..|matches| - 1], named, caseOf);
    }
  }

  lemma {:induction false} UntriedNoRepeat(page: seq<Match>, failed: set<Match>)
    requires NoRepeat(page)
    ensures NoRepeat(Untried(page, failed))
  {
    if page != [] {
      UntriedNoRepeat(page[..|page| - 1], failed);
      UntriedExactly(page[..|page| - 1], failed);
    }
  }

  /** Where the list is split, so are its unnamed matches. */
  lemma {:induction false} UnnamedSplits(front: seq<Match>, back: seq<Match>, named: set<Pair>, caseOf: nat -> nat)
    ensures Unnamed(front + back, named, caseOf) == Unnamed(front, named, caseOf) + Unnamed(back, named, caseOf)
  {
    if back == [] {
      assert front + back == front;
    } else {
      var init := back[..|back| - 1];
      UnnamedSplits(front, init, named, caseOf);
      assert (front + back)[..|front + back| - 1] == front + init;
    }
  }

  /** The more is named, the less is listed. */
  lemma {:induction false} UnnamedShrinks(matches: seq<Match>, fewer: set<Pair>, more: set<Pair>, caseOf: nat -> nat)
    requires fewer <= more
    ensures |Unnamed(matches, more, caseOf)| <= |Unnamed(matches, fewer, caseOf)|
  {
    if matches != [] { UnnamedShrinks(matches[..|matches| - 1], fewer, more, caseOf); }
  }

  // -------------------------------------------------------------------------
  // What can be reached
  // -------------------------------------------------------------------------

  /** The pairs the store would name from these matches. */
  function Acceptable(matches: seq<Match>, refuses: Match -> bool, caseOf: nat -> nat): set<Pair> {
    if matches == [] then {}
    else
      var last := matches[|matches| - 1];
      Acceptable(matches[..|matches| - 1], refuses, caseOf) + if refuses(last) then {} else {PairOf(last, caseOf)}
  }

  lemma {:induction false} AcceptableHas(matches: seq<Match>, refuses: Match -> bool, caseOf: nat -> nat, m: Match)
    requires m in matches && !refuses(m)
    ensures PairOf(m, caseOf) in Acceptable(matches, refuses, caseOf)
  {
    if m != matches[|matches| - 1] { AcceptableHas(matches[..|matches| - 1], refuses, caseOf, m); }
  }

  lemma {:induction false} AcceptableWithin(matches: seq<Match>, refuses: Match -> bool, caseOf: nat -> nat, pairs: set<Pair>)
    requires forall m :: m in matches && !refuses(m) ==> PairOf(m, caseOf) in pairs
    ensures Acceptable(matches, refuses, caseOf) <= pairs
  {
    if matches != [] { AcceptableWithin(matches[..|matches| - 1], refuses, caseOf, pairs); }
  }

  /**
   The match at `k` is the first to offer its pair, and a whole page of matches before it offer
   pairs that none before it can name: refused, every one, and never out of the way.
   */
  predicate Walled(matches: seq<Match>, named: set<Pair>, refuses: Match -> bool, caseOf: nat -> nat, k: nat)
    requires k < |matches|
  {
    var nameable := named + Acceptable(matches[..k], refuses, caseOf);
    !refuses(matches[k]) && PairOf(matches[k], caseOf) !in nameable && |Unnamed(matches[..k], nameable, caseOf)| >= PAGE
  }

  /** A page listed before the wall at `k` is passed lies in front of it. */
  lemma PageStaysBeforeWall(matches: seq<Match>, before: set<Pair>, named: set<Pair>, refuses: Match -> bool, caseOf: nat -> nat, k: nat)
    requires k < |matches| && Walled(matches, before, refuses, caseOf, k)
    requires named <= before + Acceptable(matches[..k], refuses, caseOf)
    ensures forall m :: m in ListedPage(matches, named, caseOf) ==> m in matches[..k]
  {
    var front := Unnamed(matches[..k], named, caseOf);
    UnnamedShrinks(matches[..k], named, before + Acceptable(matches[..k], refuses, caseOf), caseOf);
    assert matches == matches[..k] + matches[k..];
    UnnamedSplits(matches[..k], matches[k..], named, caseOf);
    UnnamedExactly(matches[..k], named, caseOf);
    var page := ListedPage(matches, named, caseOf);
    assert |page| == PAGE && forall i :: 0 <= i < PAGE ==> page[i] == front[i];
  }

  /** Matches still to be tried, by their places in the list. */
  function Pending(matches: seq<Match>, named: set<Pair>, failed: set<Match>, caseOf: nat -> nat): set<nat> {
    set k: nat | k < |matches| && PairOf(matches[k], caseOf) !in named && matches[k] !in failed
  }

  /** Every wall holds: what is named so far was offered in front of it. */
  ghost predicate WallsHold(matches: seq<Match>, before: set<Pair>, named: set<Pair>, refuses: Match -> bool, caseOf: nat -> nat) {
    forall k: nat | k < |matches| ::
      Walled(matches, before, refuses, caseOf, k) ==> named <= before + Acceptable(matches[..k], refuses, caseOf)
  }

  class PairStore {
    var named: set<Pair>

    /**
     `namePossibleDuplicate`, under both cases' locks: the store refuses the match or names it, and the
     call throws where it refuses and wherever its reply is lost.
     */
    method Name(m: Match, refuses: Match -> bool, throws: Match -> bool, caseOf: nat -> nat) returns (outcome: Outcome)
      requires refuses(m) ==> throws(m)
      modifies this
      ensures outcome.Threw? <==> throws(m)
      ensures named == if refuses(m) then old(named) else old(named) + {PairOf(m, caseOf)}
      ensures outcome.AlreadyNamed? <==> !throws(m) && PairOf(m, caseOf) in old(named)
      ensures |named| == |old(named)| + if outcome.Named? || (throws(m) && named != old(named)) then 1 else 0
      ensures forall n: Match :: PairOf(n, caseOf) in named <==>
                PairOf(n, caseOf) in old(named) || (!refuses(m) && {caseOf(n.event), n.of} == {caseOf(m.event), m.of})
    {
      forall n: Match ensures PairOf(n, caseOf) == PairOf(m, caseOf) <==> {caseOf(n.event), n.of} == {caseOf(m.event), m.of} {
        PairsAlike(n, m, caseOf);
      }
      if refuses(m) { return Threw; }
      var pair := PairOf(m, caseOf);
      if pair in named {
        assert named == named + {pair};
        return if throws(m) then Threw else AlreadyNamed;
      }
      named := named + {pair};
      return if throws(m) then Threw else Named;
    }
  }

  /** The page has nothing left to try: it is full of matches the store refused. */
  predicate Exhausted(matches: seq<Match>, named: set<Pair>, failed: set<Match>, refuses: Match -> bool, caseOf: nat -> nat) {
    forall m :: m in ListedPage(matches, named, caseOf) ==> m in failed && refuses(m)
  }

  /**
   What a run so far has done: named what the store accepts, `count` pairs of it, and failed nothing
   but what the store refused or named all the same.
   */
  ghost predicate Tally(matches: seq<Match>, before: set<Pair>, now: set<Pair>, failed: set<Match>, count: nat,
                        refuses: Match -> bool, caseOf: nat -> nat) {
    before <= now <= before + Acceptable(matches, refuses, caseOf) &&
    (forall m :: m in failed ==> m in matches && (refuses(m) || PairOf(m, caseOf) in now)) &&
    count == |now| - |before|
  }

  function ThrownOf(matches: seq<Match>, throws: Match -> bool): set<Match> {
    if matches == [] then {}
    else ThrownOf(matches[..|matches| - 1], throws) + if throws(matches[|matches| - 1]) then {matches[|matches| - 1]} else {}
  }

  lemma {:induction false} ThrownExactly(matches: seq<Match>, throws: Match -> bool)
    ensures forall m :: m in ThrownOf(matches, throws) <==> m in matches && throws(m)
  {
    if matches != [] {
      ThrownExactly(matches[..|matches| - 1], throws);
      assert matches == matches[..|matches| - 1] + [matches[|matches| - 1]];
    }
  }

  /** The pairs named and the matches that threw once a page was tried in order. */
  function NamedAfter(named: set<Pair>, page: seq<Match>, refuses: Match -> bool, caseOf: nat -> nat): set<Pair> {
    if page == [] then named
    else
      var (before, last) := (NamedAfter(named, page[..|page| - 1], refuses, caseOf), page[|page| - 1]);
      if refuses(last) then before else before + {PairOf(last, caseOf)}
  }

  function FailedAfter(failed: set<Match>, page: seq<Match>, throws: Match -> bool): set<Match> {
    if page == [] then failed
    else
      var (before, last) := (FailedAfter(failed, page[..|page| - 1], throws), page[|page| - 1]);
      if throws(last) then before + {last} else before
  }

  lemma {:induction false} AfterAdds(named: set<Pair>, failed: set<Match>, page: seq<Match>, refuses: Match -> bool, throws: Match -> bool, caseOf: nat -> nat)
    ensures NamedAfter(named, page, refuses, caseOf) == named + Acceptable(page, refuses, caseOf)
    ensures FailedAfter(failed, page, throws) == failed + ThrownOf(page, throws)
  {
    if page != [] { AfterAdds(named, failed, page[..|page| - 1], refuses, throws, caseOf); }
  }

  /** Every refusal throws. */
  ghost predicate RefusalsThrow(refuses: Match -> bool, throws: Match -> bool) {
    forall m :: refuses(m) ==> throws(m)
  }

  /**
   One page: every match on it is tried once, in order: named, found named, or thrown and remembered.
   `unseen` counts the pairs that a call named and yet threw.
   */
  method TryPage(store: PairStore, page: seq<Match>, failed0: set<Match>, count0: nat, already0: nat,
                 refuses: Match -> bool, throws: Match -> bool, caseOf: nat -> nat)
    returns (count: nat, already: nat, failed: set<Match>, ghost unseen: nat)
    requires RefusalsThrow(refuses, throws)
    modifies store
    ensures store.named == NamedAfter(old(store.named), page, refuses, caseOf)
    ensures failed == FailedAfter(failed0, page, throws)
    ensures count - count0 + unseen == |store.named| - |old(store.named)|
    ensures unseen + Times(page, refuses) <= Times(page, throws)
    ensures (count - count0) + (already - already0) + Times(page, throws) == |page|
  {
    count, already, failed, unseen := count0, already0, failed0, 0;
    ghost var size0 := |store.named|;
    for i := 0 to |page|
      invariant store.named == NamedAfter(old(store.named), page[..i], refuses, caseOf)
      invariant failed == FailedAfter(failed0, page[..i], throws)
      invariant count + unseen + size0 == count0 + |store.named|
      invariant unseen + Times(page[..i], refuses) <= Times(page[..i], throws)
      invariant (count - count0) + (already - already0) + Times(page[..i], throws) == i
    {
      assert page[..i + 1][..i] == page[..i];
      ghost var now := |store.named|;
      var outcome := store.Name(page[i], refuses, throws, caseOf);
      match outcome
      case Named => count := count + 1;
      case AlreadyNamed => already := already + 1;
      case Threw =>
        failed := failed + {page[i]};
        unseen := unseen + |store.named| - now;
    }
    assert page[..|page|] == page;
  }

  /** Once a page was tried, the run's tally and its walls stand. */
  lemma PageKept(matches: seq<Match>, page: seq<Match>, before: set<Pair>, named: set<Pair>, failed: set<Match>, count: nat, after: nat, refuses: Match -> bool, throws: Match -> bool, caseOf: nat -> nat)
    requires Tally(matches, before, named, failed, count, refuses, caseOf) && WallsHold(matches, before, named, refuses, caseOf)
    requires forall m :: m in page ==> m in matches && InFront(matches, before, refuses, caseOf, m)
    requires after - count == |named + Acceptable(page, refuses, caseOf)| - |named|
    ensures var now := named + Acceptable(page, refuses, caseOf);
            Tally(matches, before, now, failed + ThrownOf(page, throws), after, refuses, caseOf) &&
            WallsHold(matches, before, now, refuses, caseOf)
  {
    var now := named + Acceptable(page, refuses, caseOf);
    forall m | m in page && !refuses(m) ensures PairOf(m, caseOf) in Acceptable(matches, refuses, caseOf) {
      AcceptableHas(matches, refuses, caseOf, m);
    }
    AcceptableWithin(page, refuses, caseOf, Acceptable(matches, refuses, caseOf));
    ThrownExactly(page, throws);
    forall m | m in page && !refuses(m) ensures PairOf(m, caseOf) in now { AcceptableHas(page, refuses, caseOf, m); }
    forall k: nat | k < |matches| && Walled(matches, before, refuses, caseOf, k)
      ensures now <= before + Acceptable(matches[..k], refuses, caseOf)
    {
      forall m | m in page && !refuses(m) ensures PairOf(m, caseOf) in Acceptable(matches[..k], refuses, caseOf) {
        AcceptableHas(matches[..k], refuses, caseOf, m);
      }
      AcceptableWithin(page, refuses, caseOf, Acceptable(matches[..k], refuses, caseOf));
    }
  }

  /** Every wall is behind this match. */
  ghost predicate InFront(matches: seq<Match>, before: set<Pair>, refuses: Match -> bool, caseOf: nat -> nat, m: Match) {
    forall k: nat | k < |matches| :: Walled(matches, before, refuses, caseOf, k) ==> m in matches[..k]
  }

  lemma OneMore<T>(was: set<T>, x: T)
    requires x !in was
    ensures |was + {x}| == |was| + 1
  {
  }

  /** Where no match that threw is tried twice, each is remembered once. */
  lemma {:induction false} EachThrowCounts(tries: seq<Match>, throws: Match -> bool)
    requires ThrownOnce(tries, throws)
    ensures |ThrownOf(tries, throws)| == Times(tries, throws)
  {
    if tries != [] {
      var (init, last) := (tries[..|tries| - 1], tries[|tries| - 1]);
      EachThrowCounts(init, throws);
      ThrownExactly(init, throws);
      if throws(last) { OneMore(ThrownOf(init, throws), last); }
    }
  }

  lemma {:induction false} ThrownJoin(a: seq<Match>, b: seq<Match>, throws: Match -> bool)
    ensures ThrownOf(a + b, throws) == ThrownOf(a, throws) + ThrownOf(b, throws)
  {
    if b == [] {
      assert a + b == a;
    } else {
      ThrownJoin(a, b[..|b| - 1], throws);
      assert (a + b)[..|a + b| - 1] == a + b[..|b| - 1];
    }
  }

  /** How many of these matches are refused, or throw. */
  function Times(page: seq<Match>, p: Match -> bool): nat {
    if page == [] then 0
    else Times(page[..|page| - 1], p) + if p(page[|page| - 1]) then 1 else 0
  }

  /** What holds between any two pages; `tries` is every match tried so far. */
  ghost predicate Between(matches: seq<Match>, before: set<Pair>, now: set<Pair>, failed: set<Match>, tries: seq<Match>,
                          count: nat, already: nat, unseen: nat, refuses: Match -> bool, throws: Match -> bool, caseOf: nat -> nat) {
    Tally(matches, before, now, failed, count + unseen, refuses, caseOf) &&
    WallsHold(matches, before, now, refuses, caseOf) &&
    count + already + Times(tries, throws) == |tries| && unseen + Times(tries, refuses) <= Times(tries, throws) &&
    failed == ThrownOf(tries, throws) && (NoRepeat(matches) ==> ThrownOnce(tries, throws))
  }

  /** A page keeps it, and leaves less to try. */
  lemma PageAdvances(matches: seq<Match>, before: set<Pair>, now: set<Pair>, failed: set<Match>, tries: seq<Match>,
                     count: nat, already: nat, unseen: nat, page: seq<Match>, count': nat, already': nat, unseen': nat,
                     refuses: Match -> bool, throws: Match -> bool, caseOf: nat -> nat)
    requires RefusalsThrow(refuses, throws)
    requires Between(matches, before, now, failed, tries, count, already, unseen, refuses, throws, caseOf)
    requires page == Untried(ListedPage(matches, now, caseOf), failed) && page != []
    requires (count' + unseen') - (count + unseen) == |NamedAfter(now, page, refuses, caseOf)| - |now|
    requires unseen' - unseen + Times(page, refuses) <= Times(page, throws)
    requires (count' - count) + (already' - already) + Times(page, throws) == |page|
    ensures var (now', failed') := (NamedAfter(now, page, refuses, caseOf), FailedAfter(failed, page, throws));
            Between(matches, before, now', failed', tries + page, count', already', unseen', refuses, throws, caseOf) &&
            |Pending(matches, now', failed', caseOf)| < |Pending(matches, now, failed, caseOf)|
  {
    UntriedIsFresh(matches, before, now, failed, refuses, caseOf);
    assert page[0] in page;
    AfterAdds(now, failed, page, refuses, throws, caseOf);
    PageKept(matches, page, before, now, failed, count + unseen, count' + unseen', refuses, throws, caseOf);
    ThrownJoin(tries, page, throws);
    TimesSplit(tries, page, throws);
    TimesSplit(tries, page, refuses);
    if NoRepeat(matches) { StillThrownOnce(matches, now, failed, tries, throws, caseOf); }
    FirstIsSettled(matches, now, failed, page, refuses, throws, caseOf);
  }

  /** What is left to try of a page is unnamed, not refused before, and in front of every wall. */
  lemma UntriedIsFresh(matches: seq<Match>, before: set<Pair>, now: set<Pair>, failed: set<Match>, refuses: Match -> bool, caseOf: nat -> nat)
    requires WallsHold(matches, before, now, refuses, caseOf)
    ensures forall m :: m in Untried(ListedPage(matches, now, caseOf), failed) ==>
              m in matches && m !in failed && PairOf(m, caseOf) !in now && InFront(matches, before, refuses, caseOf, m)
  {
    var listed := ListedPage(matches, now, caseOf);
    UnnamedExactly(matches, now, caseOf);
    UntriedExactly(listed, failed);
    forall m | m in listed ensures InFront(matches, before, refuses, caseOf, m) {
      forall k: nat | k < |matches| && Walled(matches, before, refuses, caseOf, k) ensures m in matches[..k] {
        PageStaysBeforeWall(matches, before, now, refuses, caseOf, k);
      }
    }
  }

  lemma StillThrownOnce(matches: seq<Match>, now: set<Pair>, failed: set<Match>, tries: seq<Match>, throws: Match -> bool, caseOf: nat -> nat)
    requires NoRepeat(matches) && ThrownOnce(tries, throws) && failed == ThrownOf(tries, throws)
    ensures ThrownOnce(tries + Untried(ListedPage(matches, now, caseOf), failed), throws)
  {
    var listed := ListedPage(matches, now, caseOf);
    UnnamedNoRepeat(matches, now, caseOf);
    UntriedNoRepeat(listed, failed);
    UntriedExactly(listed, failed);
    ThrownExactly(tries, throws);
    ThrownOnceJoins(tries, Untried(listed, failed), throws);
  }

  lemma FirstIsSettled(matches: seq<Match>, now: set<Pair>, failed: set<Match>, page: seq<Match>, refuses: Match -> bool, throws: Match -> bool, caseOf: nat -> nat)
    requires page != [] && page[0] in matches && PairOf(page[0], caseOf) !in now && page[0] !in failed
    requires RefusalsThrow(refuses, throws)
    ensures |Pending(matches, NamedAfter(now, page, refuses, caseOf), FailedAfter(failed, page, throws), caseOf)| <
            |Pending(matches, now, failed, caseOf)|
  {
    AfterAdds(now, failed, page, refuses, throws, caseOf);
    ThrownExactly(page, throws);
    if !refuses(page[0]) { AcceptableHas(page, refuses, caseOf, page[0]); }
    PendingShrinks(matches, now, failed, NamedAfter(now, page, refuses, caseOf), FailedAfter(failed, page, throws), page[0], caseOf);
  }

  /**
   The whole run. It ends; every try is counted as named, found named or thrown; no match that threw
   is tried twice; and when it stops the store's page holds nothing but matches it refused. Pairs
   named by a call that threw are counted by no one, but none is left behind for it. No wall is ever
   passed.
   */
  method LinkDuplicates(store: PairStore, matches: seq<Match>, refuses: Match -> bool, throws: Match -> bool, caseOf: nat -> nat)
    returns (count: nat, already: nat, failed: set<Match>, ghost tries: seq<Match>, ghost unseen: nat)
    requires RefusalsThrow(refuses, throws)
    modifies store
    ensures count + already + Times(tries, throws) == |tries|
    ensures NoRepeat(matches) ==> |failed| == Times(tries, throws) && ThrownOnce(tries, throws)
    ensures unseen + Times(tries, refuses) <= Times(tries, throws)
    ensures Tally(matches, old(store.named), store.named, failed, count + unseen, refuses, caseOf)
    ensures Exhausted(matches, store.named, failed, refuses, caseOf)
    ensures WallsHold(matches, old(store.named), store.named, refuses, caseOf)
  {
    ghost var before := store.named;
    count, already, failed, tries, unseen := 0, 0, {}, [], 0;
    while true
      invariant Between(matches, before, store.named, failed, tries, count, already, unseen, refuses, throws, caseOf)
      decreases |Pending(matches, store.named, failed, caseOf)|
    {
      var listed := ListedPage(matches, store.named, caseOf);
      var page := Untried(listed, failed);
      if |page| == 0 {
        UntriedExactly(listed, failed);
        assert forall m :: m in listed && m !in failed ==> m in page;
        UnnamedExactly(matches, store.named, caseOf);
        if NoRepeat(matches) { EachThrowCounts(tries, throws); }
        return;
      }
      ghost var (now, failed0, count0, already0, unseen0) := (store.named, failed, count, already, unseen);
      ghost var more;
      count, already, failed, more := TryPage(store, page, failed, count, already, refuses, throws, caseOf);
      unseen := unseen + more;
      PageAdvances(matches, before, now, failed0, tries, count0, already0, unseen0, page, count, already, unseen, refuses, throws, caseOf);
      tries := tries + page;
    }
  }

  predicate ThrownOnce(tries: seq<Match>, throws: Match -> bool) {
    forall i, j :: 0 <= i < j < |tries| && throws(tries[i]) ==> tries[i] != tries[j]
  }

  lemma ThrownOnceJoins(tries: seq<Match>, page: seq<Match>, throws: Match -> bool)
    requires ThrownOnce(tries, throws) && NoRepeat(page)
    requires forall m :: m in tries && throws(m) ==> m !in page
    ensures ThrownOnce(tries + page, throws)
  {
    var all := tries + page;
    forall i, j | 0 <= i < j < |all| && throws(all[i]) ensures all[i] != all[j] {
      if i < |tries| <= j { assert all[i] in tries && all[j] in page; }
    }
  }

  lemma PendingShrinks(matches: seq<Match>, named0: set<Pair>, failed0: set<Match>, named: set<Pair>, failed: set<Match>, m: Match, caseOf: nat -> nat)
    requires named0 <= named && failed0 <= failed && m in matches && PairOf(m, caseOf) !in named0 && m !in failed0
    requires PairOf(m, caseOf) in named || m in failed
    ensures |Pending(matches, named, failed, caseOf)| < |Pending(matches, named0, failed0, caseOf)|
  {
    var (less, more) := (Pending(matches, named, failed, caseOf), Pending(matches, named0, failed0, caseOf));
    var k: nat :| k < |matches| && matches[k] == m;
    assert k in more && k !in less;
    assert less <= more - {k};
    SubsetSize(less, more - {k});
  }

  lemma SubsetSize(a: set<nat>, b: set<nat>)
    requires a <= b
    ensures |a| <= |b|
  {
    if a != {} {
      var x :| x in a;
      SubsetSize(a - {x}, b - {x});
    }
  }

  // -------------------------------------------------------------------------
  // When it names everything it could
  // -------------------------------------------------------------------------

  predicate NamedAll(matches: seq<Match>, named: set<Pair>, refuses: Match -> bool, caseOf: nat -> nat) {
    forall m :: m in matches && !refuses(m) ==> PairOf(m, caseOf) in named
  }

  /** A match with no wall in front of it is named, once every acceptable one before it is. */
  lemma NamedUnlessWalled(matches: seq<Match>, before: set<Pair>, named: set<Pair>, failed: set<Match>, refuses: Match -> bool, caseOf: nat -> nat, k: nat)
    requires k < |matches| && !refuses(matches[k]) && before <= named
    requires Exhausted(matches, named, failed, refuses, caseOf)
    requires Acceptable(matches[..k], refuses, caseOf) <= named && !Walled(matches, before, refuses, caseOf, k)
    ensures PairOf(matches[k], caseOf) in named
  {
    UnnamedShrinks(matches[..k], before + Acceptable(matches[..k], refuses, caseOf), named, caseOf);
    if PairOf(matches[k], caseOf) !in named { FirstUnnamedIsListed(matches, named, caseOf, k); }
  }

  /** An unnamed match with less than a page unnamed before it is on the page. */
  lemma FirstUnnamedIsListed(matches: seq<Match>, named: set<Pair>, caseOf: nat -> nat, k: nat)
    requires k < |matches| && PairOf(matches[k], caseOf) !in named && |Unnamed(matches[..k], named, caseOf)| < PAGE
    ensures matches[k] in ListedPage(matches, named, caseOf)
  {
    var front := Unnamed(matches[..k], named, caseOf);
    assert matches == matches[..k] + ([matches[k]] + matches[k + 1..]);
    UnnamedSplits(matches[..k], [matches[k]] + matches[k + 1..], named, caseOf);
    UnnamedSplits([matches[k]], matches[k + 1..], named, caseOf);
    assert [matches[k]][..0] == [];
    assert Unnamed([matches[k]], named, caseOf) == [matches[k]];
    assert ListedPage(matches, named, caseOf)[|front|] == matches[k];
  }

  lemma {:induction false} NamedUpTo(matches: seq<Match>, before: set<Pair>, named: set<Pair>, failed: set<Match>, refuses: Match -> bool, caseOf: nat -> nat, n: nat)
    requires n <= |matches| && before <= named
    requires Exhausted(matches, named, failed, refuses, caseOf)
    requires forall k: nat | k < |matches| :: !Walled(matches, before, refuses, caseOf, k)
    ensures Acceptable(matches[..n], refuses, caseOf) <= named
  {
    if n > 0 {
      NamedUpTo(matches, before, named, failed, refuses, caseOf, n - 1);
      assert matches[..n][..n - 1] == matches[..n - 1];
      if !refuses(matches[n - 1]) { NamedUnlessWalled(matches, before, named, failed, refuses, caseOf, n - 1); }
    }
  }

  /**
   Whatever the run ends with, it has named every pair the store accepts exactly when no match
   stands behind a page of matches that are refused and never out of the way.
   */
  lemma CompleteExactlyWithoutWalls(matches: seq<Match>, before: set<Pair>, named: set<Pair>, failed: set<Match>, count: nat, refuses: Match -> bool, caseOf: nat -> nat)
    requires Tally(matches, before, named, failed, count, refuses, caseOf)
    requires Exhausted(matches, named, failed, refuses, caseOf) && WallsHold(matches, before, named, refuses, caseOf)
    ensures NamedAll(matches, named, refuses, caseOf) <==>
            forall k: nat | k < |matches| :: !Walled(matches, before, refuses, caseOf, k)
  {
    if forall k: nat | k < |matches| :: !Walled(matches, before, refuses, caseOf, k) {
      NamedUpTo(matches, before, named, failed, refuses, caseOf, |matches|);
      assert matches[..|matches|] == matches;
      forall m | m in matches && !refuses(m) ensures PairOf(m, caseOf) in named {
        AcceptableHas(matches, refuses, caseOf, m);
      }
    } else {
      var k: nat :| k < |matches| && Walled(matches, before, refuses, caseOf, k);
      assert matches[k] in matches;
    }
  }

  /** In particular with fewer refused matches than a page holds, the run leaves nothing but them. */
  lemma FewRefusalsLeaveNoWall(matches: seq<Match>, before: set<Pair>, refuses: Match -> bool, caseOf: nat -> nat, k: nat)
    requires k < |matches| && Times(matches, refuses) < PAGE
    ensures !Walled(matches, before, refuses, caseOf, k)
  {
    var nameable := before + Acceptable(matches[..k], refuses, caseOf);
    UnnamedAreRefused(matches[..k], nameable, refuses, caseOf);
    assert matches == matches[..k] + matches[k..];
    TimesSplit(matches[..k], matches[k..], refuses);
  }

  lemma {:induction false} UnnamedAreRefused(matches: seq<Match>, named: set<Pair>, refuses: Match -> bool, caseOf: nat -> nat)
    requires Acceptable(matches, refuses, caseOf) <= named
    ensures |Unnamed(matches, named, caseOf)| <= Times(matches, refuses)
  {
    if matches != [] {
      UnnamedAreRefused(matches[..|matches| - 1], named, refuses, caseOf);
    }
  }

  lemma {:induction false} TimesSplit(front: seq<Match>, back: seq<Match>, p: Match -> bool)
    ensures Times(front + back, p) == Times(front, p) + Times(back, p)
  {
    if back == [] {
      assert front + back == front;
    } else {
      TimesSplit(front, back[..|back| - 1], p);
      assert (front + back)[..|front + back| - 1] == front + back[..|back| - 1];
    }
  }

  lemma {:induction false} NothingNamed(matches: seq<Match>, named: set<Pair>, caseOf: nat -> nat)
    requires forall k :: 0 <= k < |matches| ==> PairOf(matches[k], caseOf) !in named
    ensures Unnamed(matches, named, caseOf) == matches
  {
    if matches != [] { NothingNamed(matches[..|matches| - 1], named, caseOf); }
  }

  /**
   A page of refused matches, for whatever was thrown while they were tried (a database that was
   away, a lock that timed out, a case the member lost sight of), then one the store accepts with a
   pair none of them offers: it is behind a wall, and is never reached.
   */
  lemma APageOfRefusalsIsAWall(matches: seq<Match>, named: set<Pair>, refuses: Match -> bool, caseOf: nat -> nat)
    requires |matches| > PAGE && forall k :: 0 <= k < PAGE ==> refuses(matches[k]) && PairOf(matches[k], caseOf) !in named
    requires !refuses(matches[PAGE]) && PairOf(matches[PAGE], caseOf) !in named
    ensures Walled(matches, named, refuses, caseOf, PAGE)
  {
    AcceptableWithin(matches[..PAGE], refuses, caseOf, {});
    assert named + Acceptable(matches[..PAGE], refuses, caseOf) == named;
    NothingNamed(matches[..PAGE], named, caseOf);
  }

  /** And every match left unnamed is one it refused and remembers. */
  lemma FewRefusalsAreAllRemembered(matches: seq<Match>, before: set<Pair>, named: set<Pair>, failed: set<Match>, count: nat, refuses: Match -> bool, caseOf: nat -> nat)
    requires Tally(matches, before, named, failed, count, refuses, caseOf) && Times(matches, refuses) < PAGE
    requires Exhausted(matches, named, failed, refuses, caseOf) && WallsHold(matches, before, named, refuses, caseOf)
    ensures NamedAll(matches, named, refuses, caseOf)
    ensures forall m :: m in matches && PairOf(m, caseOf) !in named ==> m in failed
  {
    forall k: nat | k < |matches| ensures !Walled(matches, before, refuses, caseOf, k) {
      FewRefusalsLeaveNoWall(matches, before, refuses, caseOf, k);
    }
    CompleteExactlyWithoutWalls(matches, before, named, failed, count, refuses, caseOf);
    AcceptableWithin(matches, refuses, caseOf, named);
    UnnamedAreRefused(matches, named, refuses, caseOf);
    UnnamedExactly(matches, named, caseOf);
  }

  /**
   What a run that started with the matches `done` named has named at its end, in terms of cases: only
   what is between the cases of one of those, or of a match the store accepts.
   */
  lemma EndsByCases(matches: seq<Match>, done: set<Match>, named: set<Pair>, failed: set<Match>, count: nat, refuses: Match -> bool, caseOf: nat -> nat, m: Match)
    requires Tally(matches, PairsOf(done, caseOf), named, failed, count, refuses, caseOf)
    ensures PairOf(m, caseOf) in named ==>
              exists n :: (n in done || (n in matches && !refuses(n))) && {caseOf(n.event), n.of} == {caseOf(m.event), m.of}
  {
    if PairOf(m, caseOf) in named {
      if PairOf(m, caseOf) in PairsOf(done, caseOf) {
        var n :| n in done && PairOf(n, caseOf) == PairOf(m, caseOf);
        PairsAlike(n, m, caseOf);
      } else {
        var n := AcceptedFor(matches, refuses, caseOf, PairOf(m, caseOf));
        PairsAlike(n, m, caseOf);
      }
    }
  }

  /** The match that makes a pair acceptable. */
  lemma {:induction false} AcceptedFor(matches: seq<Match>, refuses: Match -> bool, caseOf: nat -> nat, pair: Pair) returns (n: Match)
    requires pair in Acceptable(matches, refuses, caseOf)
    ensures n in matches && !refuses(n) && PairOf(n, caseOf) == pair
  {
    var last := matches[|matches| - 1];
    if !refuses(last) && PairOf(last, caseOf) == pair { n := last; }
    else { n := AcceptedFor(matches[..|matches| - 1], refuses, caseOf, pair); }
  }
}
