/**
 `groupByPayer`: the inbox's documents under the payer of each one's strongest suggested case. One
 pass over the documents fills a map of groups; the groups come out in key order, then the
 documents whose case names no payer, then those with no suggestion.

 `fold` is `retailerMatchKey`, whose empty answer means "no key".
 */
module PayerGroups {

  datatype Option<+T> = None | Some(value: T)

  /** The strongest suggested case, as it names its payer. */
  datatype Top = Top(debtorName: Option<string>, printedName: Option<string>)

  datatype Document = Document(id: nat, top: Option<Top>)

  /** A payer's name, the words for a case that names none, or nothing for the unmatched. */
  datatype Heading = Payer(name: Option<string>) | PayerNotNamed | NoHeading

  datatype Group = Group(heading: Heading, documents: seq<Document>)

  /** A group of the map while it grows. */
  datatype Growing = Growing(heading: string, documents: seq<Document>, byDebtor: bool)

  datatype Slot = Unmatched | Unnamed | Keyed(key: string)

  // -------------------------------------------------------------------------
  // The order of keys
  // -------------------------------------------------------------------------

  /** `a < b` on strings, unit by unit. */
  predicate Before(a: string, b: string) {
    if b == "" then false
    else if a == "" then true
    else a[0] < b[0] || (a[0] == b[0] && Before(a[1..], b[1..]))
  }

  lemma {:induction false} BeforeIsTotal(a: string, b: string)
    ensures a != b ==> Before(a, b) || Before(b, a)
    ensures !(Before(a, b) && Before(b, a)) && !Before(a, a)
  {
    if a != "" && b != "" {
      BeforeIsTotal(a[1..], b[1..]);
      assert a == [a[0]] + a[1..] && b == [b[0]] + b[1..];
    }
    if a != "" { BeforeIsTotal(a[1..], a[1..]); }
  }

  lemma {:induction false} BeforeChains(a: string, b: string, c: string)
    requires Before(a, b) && Before(b, c)
    ensures Before(a, c)
  {
    if a != "" && a[0] == b[0] == c[0] { BeforeChains(a[1..], b[1..], c[1..]); }
  }

  predicate Increasing(keys: seq<string>) {
    forall i, j :: 0 <= i < j < |keys| ==> Before(keys[i], keys[j])
  }

  function Insert(keys: seq<string>, key: string): seq<string> {
    if keys == [] || Before(key, keys[0]) then [key] + keys else [keys[0]] + Insert(keys[1..], key)
  }

  function Sorted(keys: seq<string>): seq<string> {
    if keys == [] then [] else Insert(Sorted(keys[1..]), keys[0])
  }

  lemma {:induction false} InsertHas(keys: seq<string>, key: string)
    ensures forall k :: k in Insert(keys, key) <==> k in keys || k == key
  {
    if keys != [] && !Before(key, keys[0]) { InsertHas(keys[1..], key); }
  }

  lemma {:induction false} InsertIncreasing(keys: seq<string>, key: string)
    requires Increasing(keys) && key !in keys
    ensures Increasing(Insert(keys, key))
  {
    if keys == [] {
    } else if Before(key, keys[0]) {
      forall i | 0 < i < |keys| ensures Before(key, keys[i]) { BeforeChains(key, keys[0], keys[i]); }
    } else {
      BeforeIsTotal(key, keys[0]);
      InsertIncreasing(keys[1..], key);
      InsertHas(keys[1..], key);
      var rest := Insert(keys[1..], key);
      forall i | 0 <= i < |rest| ensures Before(keys[0], rest[i]) {
        assert rest[i] in rest;
        if rest[i] != key {
          var j :| 0 <= j < |keys[1..]| && keys[1..][j] == rest[i];
          assert Before(keys[0], keys[j + 1]);
        }
      }
    }
  }

  predicate NoRepeat(keys: seq<string>) {
    forall i, j :: 0 <= i < j < |keys| ==> keys[i] != keys[j]
  }

  lemma {:induction false} SortedIncreasing(keys: seq<string>)
    requires NoRepeat(keys)
    ensures Increasing(Sorted(keys))
    ensures forall k :: k in Sorted(keys) <==> k in keys
  {
    if keys != [] {
      SortedIncreasing(keys[1..]);
      InsertIncreasing(Sorted(keys[1..]), keys[0]);
      InsertHas(Sorted(keys[1..]), keys[0]);
    }
  }

  // -------------------------------------------------------------------------
  // What a group is, said without the pass
  // -------------------------------------------------------------------------

  /** A person's name for the payer, else the page's. */
  function NameOf(top: Top): Option<string> {
    if top.debtorName.Some? then top.debtorName else top.printedName
  }

  function SlotOf(d: Document, fold: string -> string): Slot {
    if d.top.None? then Unmatched
    else
      var name := NameOf(d.top.value);
      if name.None? || fold(name.value) == "" then Unnamed else Keyed(fold(name.value))
  }

  /** The documents of one slot, in the store's order. */
  function Select(documents: seq<Document>, slot: Slot, fold: string -> string): seq<Document> {
    if documents == [] then []
    else
      var last := documents[|documents| - 1];
      Select(documents[..|documents| - 1], slot, fold) + if SlotOf(last, fold) == slot then [last] else []
  }

  function FirstDebtorName(documents: seq<Document>): Option<string> {
    if documents == [] then None
    else
      var before := FirstDebtorName(documents[..|documents| - 1]);
      var top := documents[|documents| - 1].top;
      if before.Some? then before else if top.Some? then top.value.debtorName else None
  }

  /** The first debtor name in the group, or else its first document's printed name. */
  function HeadingOf(documents: seq<Document>): Option<string> {
    if FirstDebtorName(documents).Some? then FirstDebtorName(documents)
    else if documents == [] || documents[0].top.None? then None
    else NameOf(documents[0].top.value)
  }

  function KeyedGroups(keys: seq<string>, documents: seq<Document>, fold: string -> string): seq<Group> {
    if keys == [] then []
    else
      var members := Select(documents, Keyed(keys[0]), fold);
      [Group(Payer(HeadingOf(members)), members)] + KeyedGroups(keys[1..], documents, fold)
  }

  function TailGroup(heading: Heading, documents: seq<Document>): seq<Group> {
    if documents == [] then [] else [Group(heading, documents)]
  }

  /** The groups of these keys, then the unnamed, then the unmatched. */
  function GroupsBy(keys: seq<string>, documents: seq<Document>, fold: string -> string): seq<Group> {
    KeyedGroups(keys, documents, fold) + TailGroup(PayerNotNamed, Select(documents, Unnamed, fold)) +
    TailGroup(NoHeading, Select(documents, Unmatched, fold))
  }

  /** The keys some document folds to. */
  ghost predicate KeysOf(keys: seq<string>, documents: seq<Document>, fold: string -> string) {
    forall key :: key in keys <==> Select(documents, Keyed(key), fold) != []
  }

  // -------------------------------------------------------------------------
  // The pass
  // -------------------------------------------------------------------------

  /** A group of the map is its key's documents, under their heading. */
  predicate IsGroupOf(g: Growing, members: seq<Document>) {
    g.documents == members && HeadingOf(members) == Some(g.heading) && g.byDebtor == FirstDebtorName(members).Some?
  }

  /** The map holds the keys the documents fold to, kept in the order they came. */
  ghost predicate KeysGrown(keys: set<string>, order: seq<string>, documents: seq<Document>, fold: string -> string) {
    NoRepeat(order) && KeysOf(order, documents, fold) && forall key :: key in keys <==> key in order
  }

  ghost predicate GroupsGrown(named: map<string, Growing>, documents: seq<Document>, fold: string -> string) {
    forall key :: key in named ==> IsGroupOf(named[key], Select(documents, Keyed(key), fold))
  }

  /** The map after some of the documents. */
  ghost predicate Grown(named: map<string, Growing>, order: seq<string>, documents: seq<Document>, fold: string -> string) {
    KeysGrown(named.Keys, order, documents, fold) && GroupsGrown(named, documents, fold)
  }

  lemma SelectSnoc(documents: seq<Document>, d: Document, slot: Slot, fold: string -> string)
    ensures Select(documents + [d], slot, fold) ==
            if SlotOf(d, fold) == slot then Select(documents, slot, fold) + [d] else Select(documents, slot, fold)
  {
    assert (documents + [d])[..|documents|] == documents;
    assert Select(documents, slot, fold) + [] == Select(documents, slot, fold);
  }

  /** What another slot's document leaves as it was. */
  lemma OthersStay(documents: seq<Document>, d: Document, fold: string -> string)
    ensures forall key :: SlotOf(d, fold) != Keyed(key) ==>
              Select(documents + [d], Keyed(key), fold) == Select(documents, Keyed(key), fold)
  {
    forall key | SlotOf(d, fold) != Keyed(key)
      ensures Select(documents + [d], Keyed(key), fold) == Select(documents, Keyed(key), fold)
    {
      SelectSnoc(documents, d, Keyed(key), fold);
    }
  }

  lemma GrownByOther(named: map<string, Growing>, order: seq<string>, documents: seq<Document>, d: Document, fold: string -> string)
    requires Grown(named, order, documents, fold) && !SlotOf(d, fold).Keyed?
    ensures Grown(named, order, documents + [d], fold)
  {
    OthersStay(documents, d, fold);
  }

  lemma FirstOfGroup(d: Document)
    requires d.top.Some? && NameOf(d.top.value).Some?
    ensures IsGroupOf(Growing(NameOf(d.top.value).value, [d], d.top.value.debtorName.Some?), [d])
  {
    assert [d][..0] == [];
    assert FirstDebtorName([]).None?;
    assert FirstDebtorName([d]) == d.top.value.debtorName;
  }

  lemma GrownByNew(named: map<string, Growing>, order: seq<string>, documents: seq<Document>, d: Document, fold: string -> string)
    requires Grown(named, order, documents, fold) && SlotOf(d, fold).Keyed? && SlotOf(d, fold).key !in named
    ensures var g := Growing(NameOf(d.top.value).value, [d], d.top.value.debtorName.Some?);
            var key := SlotOf(d, fold).key;
            Grown(named[key := g], order + [key], documents + [d], fold)
  {
    var key := SlotOf(d, fold).key;
    OthersStay(documents, d, fold);
    SelectSnoc(documents, d, Keyed(key), fold);
    FirstOfGroup(d);
    assert key !in order;
    assert Select(documents, Keyed(key), fold) == [];
    NewKey(named.Keys, order, documents, documents + [d], key, fold);
    var g := Growing(NameOf(d.top.value).value, [d], d.top.value.debtorName.Some?);
    PutGroup(named, documents, documents + [d], key, g, fold);
    assert named[key := g].Keys == named.Keys + {key};
  }

  lemma NewKey(keys: set<string>, order: seq<string>, documents: seq<Document>, more: seq<Document>, key: string, fold: string -> string)
    requires KeysGrown(keys, order, documents, fold) && key !in order && Select(more, Keyed(key), fold) != []
    requires forall other :: other != key ==> Select(more, Keyed(other), fold) == Select(documents, Keyed(other), fold)
    ensures KeysGrown(keys + {key}, order + [key], more, fold)
  {
    forall other ensures other in order + [key] <==> other in order || other == key {}
  }

  lemma PutGroup(named: map<string, Growing>, documents: seq<Document>, more: seq<Document>, key: string, g: Growing, fold: string -> string)
    requires GroupsGrown(named, documents, fold) && IsGroupOf(g, Select(more, Keyed(key), fold))
    requires forall other :: other != key ==> Select(more, Keyed(other), fold) == Select(documents, Keyed(other), fold)
    ensures GroupsGrown(named[key := g], more, fold)
  {
  }

  /** A person's name for the payer over a page's, whichever came first. */
  function Joined(g: Growing, d: Document, top: Top): Growing {
    var more := g.(documents := g.documents + [d]);
    if !g.byDebtor && top.debtorName.Some? then more.(heading := top.debtorName.value, byDebtor := true) else more
  }

  lemma JoinedIsGroup(g: Growing, members: seq<Document>, d: Document)
    requires IsGroupOf(g, members) && members != [] && d.top.Some?
    ensures IsGroupOf(Joined(g, d, d.top.value), members + [d])
  {
    assert (members + [d])[..|members|] == members;
  }

  lemma GrownByJoining(named: map<string, Growing>, order: seq<string>, documents: seq<Document>, d: Document, fold: string -> string)
    requires Grown(named, order, documents, fold) && SlotOf(d, fold).Keyed? && SlotOf(d, fold).key in named
    ensures var key := SlotOf(d, fold).key;
            Grown(named[key := Joined(named[key], d, d.top.value)], order, documents + [d], fold)
  {
    var key := SlotOf(d, fold).key;
    OthersStay(documents, d, fold);
    SelectSnoc(documents, d, Keyed(key), fold);
    assert key in order && Select(documents, Keyed(key), fold) != [];
    JoinedIsGroup(named[key], Select(documents, Keyed(key), fold), d);
    var g := Joined(named[key], d, d.top.value);
    PutGroup(named, documents, documents + [d], key, g, fold);
    OldKey(named.Keys, order, documents, documents + [d], key, fold);
    assert named[key := g].Keys == named.Keys;
  }

  lemma OldKey(keys: set<string>, order: seq<string>, documents: seq<Document>, more: seq<Document>, key: string, fold: string -> string)
    requires KeysGrown(keys, order, documents, fold) && key in order && Select(more, Keyed(key), fold) != []
    requires forall other :: other != key ==> Select(more, Keyed(other), fold) == Select(documents, Keyed(other), fold)
    ensures KeysGrown(keys, order, more, fold)
  {
  }

  lemma {:induction false} NoneSelected(documents: seq<Document>, slot: Slot, fold: string -> string)
    requires forall d :: d in documents ==> SlotOf(d, fold) != slot
    ensures Select(documents, slot, fold) == []
  {
    if documents != [] { NoneSelected(documents[..|documents| - 1], slot, fold); }
  }

  /** One document's place: its payer's group, new or old, the unnamed or the unmatched. */
  method Place(named0: map<string, Growing>, order0: seq<string>, unnamed0: seq<Document>, unmatched0: seq<Document>,
               d: Document, fold: string -> string, ghost placed: seq<Document>)
    returns (named: map<string, Growing>, order: seq<string>, unnamed: seq<Document>, unmatched: seq<Document>)
    requires Grown(named0, order0, placed, fold)
    requires unnamed0 == Select(placed, Unnamed, fold) && unmatched0 == Select(placed, Unmatched, fold)
    ensures Grown(named, order, placed + [d], fold)
    ensures unnamed == Select(placed + [d], Unnamed, fold) && unmatched == Select(placed + [d], Unmatched, fold)
  {
    named, order, unnamed, unmatched := named0, order0, unnamed0, unmatched0;
    SelectSnoc(placed, d, Unnamed, fold);
    SelectSnoc(placed, d, Unmatched, fold);
    if d.top.None? {
      GrownByOther(named, order, placed, d, fold);
      unmatched := unmatched + [d];
      return;
    }
    var top := d.top.value;
    var name := NameOf(top);
    var key := if name.None? then "" else fold(name.value);
    if name.None? || key == "" {
      GrownByOther(named, order, placed, d, fold);
      unnamed := unnamed + [d];
    } else if key !in named {
      GrownByNew(named, order, placed, d, fold);
      named := named[key := Growing(name.value, [d], top.debtorName.Some?)];
      order := order + [key];
    } else {
      GrownByJoining(named, order, placed, d, fold);
      named := named[key := Joined(named[key], d, top)];
    }
  }

  /**
   The pass and the sort. Nothing is grouped when no document has a suggestion; otherwise the
   groups are those of the strictly increasing keys the documents fold to, each its key's documents
   in the store's order under its heading, then the unnamed, then the unmatched.
   */
  method GroupByPayer(documents: seq<Document>, fold: string -> string)
    returns (groups: Option<seq<Group>>, ghost keys: seq<string>)
    ensures groups.None? <==> forall d :: d in documents ==> d.top.None?
    ensures groups.Some? ==>
              Increasing(keys) && KeysOf(keys, documents, fold) && groups.value == GroupsBy(keys, documents, fold)
  {
    keys := [];
    if forall d :: d in documents ==> d.top.None? { return None, []; }
    var named: map<string, Growing> := map[];
    var order: seq<string> := [];
    var unnamed: seq<Document>, unmatched: seq<Document> := [], [];
    for i := 0 to |documents|
      invariant Grown(named, order, documents[..i], fold)
      invariant unnamed == Select(documents[..i], Unnamed, fold)
      invariant unmatched == Select(documents[..i], Unmatched, fold)
    {
      named, order, unnamed, unmatched := Place(named, order, unnamed, unmatched, documents[i], fold, documents[..i]);
      assert documents[..i + 1] == documents[..i] + [documents[i]];
    }
    assert documents[..|documents|] == documents;
    SortedIncreasing(order);
    keys := Sorted(order);
    var out := HeadedGroups(named, Sorted(order), documents, fold);
    groups := Some(out + TailGroup(PayerNotNamed, unnamed) + TailGroup(NoHeading, unmatched));
  }

  /** The map's entries by key. */
  method HeadedGroups(named: map<string, Growing>, sorted: seq<string>, ghost documents: seq<Document>, ghost fold: string -> string)
    returns (out: seq<Group>)
    requires forall key :: key in sorted ==> key in named && IsGroupOf(named[key], Select(documents, Keyed(key), fold))
    ensures out == KeyedGroups(sorted, documents, fold)
  {
    out := [];
    for i := 0 to |sorted|
      invariant out + KeyedGroups(sorted[i..], documents, fold) == KeyedGroups(sorted, documents, fold)
    {
      assert sorted[i] in sorted && sorted[i..][1..] == sorted[i + 1..];
      var g := named[sorted[i]];
      out := out + [Group(Payer(Some(g.heading)), g.documents)];
    }
    assert sorted[|sorted|..] == [];
  }

  // -------------------------------------------------------------------------
  // Nothing is lost, nothing comes twice
  // -------------------------------------------------------------------------

  function Flatten(groups: seq<Group>): seq<Document> {
    if groups == [] then [] else groups[0].documents + Flatten(groups[1..])
  }

  lemma {:induction false} FlattenJoin(a: seq<Group>, b: seq<Group>)
    ensures Flatten(a + b) == Flatten(a) + Flatten(b)
  {
    if a == [] {
      assert a + b == b;
    } else {
      assert (a + b)[1..] == a[1..] + b;
      FlattenJoin(a[1..], b);
    }
  }

  predicate KeyIn(slot: Slot, keys: seq<string>) {
    slot.Keyed? && slot.key in keys
  }

  lemma FirstOrRest(slot: Slot, keys: seq<string>)
    requires keys != [] && NoRepeat(keys)
    ensures KeyIn(slot, keys) <==> slot == Keyed(keys[0]) || KeyIn(slot, keys[1..])
    ensures !(slot == Keyed(keys[0]) && KeyIn(slot, keys[1..])) && NoRepeat(keys[1..])
  {
    assert keys == [keys[0]] + keys[1..];
  }

  /** One more document adds itself to its key's group, if its key is there, and to no other. */
  lemma {:induction false} KeyedGrow(keys: seq<string>, documents: seq<Document>, d: Document, fold: string -> string)
    requires NoRepeat(keys)
    ensures multiset(Flatten(KeyedGroups(keys, documents + [d], fold))) ==
            multiset(Flatten(KeyedGroups(keys, documents, fold))) +
            if KeyIn(SlotOf(d, fold), keys) then multiset{d} else multiset{}
  {
    if keys != [] {
      KeyedGrow(keys[1..], documents, d, fold);
      SelectSnoc(documents, d, Keyed(keys[0]), fold);
      FirstOrRest(SlotOf(d, fold), keys);
      var (mine, rest) := (Select(documents, Keyed(keys[0]), fold), Flatten(KeyedGroups(keys[1..], documents, fold)));
      var more := documents + [d];
      var (mine', rest') := (Select(more, Keyed(keys[0]), fold), Flatten(KeyedGroups(keys[1..], more, fold)));
      FirstGroupThenRest(keys, documents, fold);
      FirstGroupThenRest(keys, more, fold);
      Counted(mine, rest, mine', rest', d, SlotOf(d, fold) == Keyed(keys[0]), KeyIn(SlotOf(d, fold), keys[1..]));
    }
  }

  lemma FirstGroupThenRest(keys: seq<string>, documents: seq<Document>, fold: string -> string)
    requires keys != []
    ensures Flatten(KeyedGroups(keys, documents, fold)) ==
            Select(documents, Keyed(keys[0]), fold) + Flatten(KeyedGroups(keys[1..], documents, fold))
  {
    var groups := KeyedGroups(keys, documents, fold);
    assert groups[1..] == KeyedGroups(keys[1..], documents, fold);
  }

  lemma Counted(mine: seq<Document>, rest: seq<Document>, mine': seq<Document>, rest': seq<Document>, d: Document, inMine: bool, inRest: bool)
    requires !(inMine && inRest) && mine' == if inMine then mine + [d] else mine
    requires multiset(rest') == multiset(rest) + if inRest then multiset{d} else multiset{}
    ensures multiset(mine' + rest') == multiset(mine + rest) + if inMine || inRest then multiset{d} else multiset{}
  {
  }

  lemma {:induction false} KeyedNone(keys: seq<string>, fold: string -> string)
    ensures Flatten(KeyedGroups(keys, [], fold)) == []
  {
    if keys != [] { KeyedNone(keys[1..], fold); }
  }

  lemma {:induction false} SlotsCover(keys: seq<string>, documents: seq<Document>, fold: string -> string)
    requires NoRepeat(keys) && forall d :: d in documents && SlotOf(d, fold).Keyed? ==> SlotOf(d, fold).key in keys
    ensures multiset(Flatten(KeyedGroups(keys, documents, fold))) + multiset(Select(documents, Unnamed, fold)) +
            multiset(Select(documents, Unmatched, fold)) == multiset(documents)
  {
    if documents == [] {
      KeyedNone(keys, fold);
    } else {
      var (init, last) := (documents[..|documents| - 1], documents[|documents| - 1]);
      assert documents == init + [last];
      SlotsCover(keys, init, fold);
      KeyedGrow(keys, init, last, fold);
      SelectSnoc(init, last, Unnamed, fold);
      SelectSnoc(init, last, Unmatched, fold);
    }
  }

  lemma {:induction false} SelectHas(documents: seq<Document>, d: Document, fold: string -> string)
    requires d in documents
    ensures d in Select(documents, SlotOf(d, fold), fold)
  {
    if d != documents[|documents| - 1] { SelectHas(documents[..|documents| - 1], d, fold); }
  }

  lemma IncreasingNoRepeat(keys: seq<string>)
    requires Increasing(keys)
    ensures NoRepeat(keys)
  {
    forall i, j | 0 <= i < j < |keys| ensures keys[i] != keys[j] { BeforeIsTotal(keys[i], keys[j]); }
  }

  /** The groups together hold every document once: none is lost, none comes twice. */
  lemma GroupsArePermutation(keys: seq<string>, documents: seq<Document>, fold: string -> string)
    requires Increasing(keys) && KeysOf(keys, documents, fold)
    ensures multiset(Flatten(GroupsBy(keys, documents, fold))) == multiset(documents)
  {
    IncreasingNoRepeat(keys);
    forall d | d in documents && SlotOf(d, fold).Keyed? ensures SlotOf(d, fold).key in keys {
      SelectHas(documents, d, fold);
    }
    SlotsCover(keys, documents, fold);
    var (unnamed, unmatched) := (Select(documents, Unnamed, fold), Select(documents, Unmatched, fold));
    FlattenJoin(KeyedGroups(keys, documents, fold) + TailGroup(PayerNotNamed, unnamed), TailGroup(NoHeading, unmatched));
    FlattenJoin(KeyedGroups(keys, documents, fold), TailGroup(PayerNotNamed, unnamed));
    TailFlat(PayerNotNamed, unnamed);
    TailFlat(NoHeading, unmatched);
  }

  lemma TailFlat(heading: Heading, documents: seq<Document>)
    ensures Flatten(TailGroup(heading, documents)) == documents
  {
    if documents != [] { assert [Group(heading, documents)][1..] == []; }
  }

  /** No two orders of the keys are increasing, so the groups are the only ones there are. */
  lemma {:induction false} IncreasingIsUnique(a: seq<string>, b: seq<string>)
    requires Increasing(a) && Increasing(b) && forall key :: key in a <==> key in b
    ensures a == b
  {
    assert b != [] ==> b[0] in b;
    if a != [] {
      assert a[0] in b && (b != [] ==> b[0] in a);
      SameFirst(a, b);
      RestHas(a);
      RestHas(b);
      IncreasingIsUnique(a[1..], b[1..]);
      assert a == [a[0]] + a[1..] && b == [b[0]] + b[1..];
    }
  }

  lemma RestHas(keys: seq<string>)
    requires keys != [] && Increasing(keys)
    ensures forall key :: key in keys[1..] <==> key in keys && key != keys[0]
  {
    IncreasingNoRepeat(keys);
    assert keys == [keys[0]] + keys[1..];
  }

  lemma SameFirst(a: seq<string>, b: seq<string>)
    requires a != [] && b != [] && Increasing(a) && Increasing(b) && a[0] in b && b[0] in a
    ensures a[0] == b[0]
  {
    var i :| 0 <= i < |b| && b[i] == a[0];
    var j :| 0 <= j < |a| && a[j] == b[0];
    if i > 0 && j > 0 { BeforeIsTotal(a[0], b[0]); }
  }
}
