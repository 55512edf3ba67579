/** Where each document of the grouping stands, by the names on its own suggestion. */
module PayerPlaces {
  import opened PayerGroups

  /** A document's payer: its case's debtor, or else the name printed on the case. */
  predicate NamesPayer(d: Document, name: string) {
    d.top.Some? &&
    (d.top.value.debtorName == Some(name) || (d.top.value.debtorName == None && d.top.value.printedName == Some(name)))
  }

  /** Its payer folds to this key. */
  ghost predicate FoldsTo(d: Document, key: string, fold: string -> string) {
    exists name :: NamesPayer(d, name) && fold(name) == key
  }

  lemma SlotByName(d: Document, fold: string -> string)
    ensures SlotOf(d, fold) == Unmatched <==> d.top.None?
    ensures forall key :: SlotOf(d, fold) == Keyed(key) <==> key != "" && FoldsTo(d, key, fold)
    ensures SlotOf(d, fold) == Unnamed <==> d.top.Some? && forall key :: key != "" ==> !FoldsTo(d, key, fold)
  {
    if d.top.Some? {
      var name := NameOf(d.top.value);
      if name.Some? {
        assert NamesPayer(d, name.value);
        assert forall other :: NamesPayer(d, other) ==> other == name.value;
      }
      assert forall key :: FoldsTo(d, key, fold) <==> name.Some? && fold(name.value) == key;
      if SlotOf(d, fold).Keyed? { assert FoldsTo(d, fold(name.value), fold) && fold(name.value) != ""; }
    }
  }

  lemma {:induction false} SelectedExactly(documents: seq<Document>, slot: Slot, fold: string -> string, d: Document)
    ensures d in Select(documents, slot, fold) <==> d in documents && SlotOf(d, fold) == slot
  {
    if documents != [] {
      SelectedExactly(documents[..|documents| - 1], slot, fold, d);
      assert documents == documents[..|documents| - 1] + [documents[|documents| - 1]];
    }
  }

  lemma {:induction false} KeyedAt(keys: seq<string>, documents: seq<Document>, fold: string -> string, i: nat)
    requires i < |keys|
    ensures |KeyedGroups(keys, documents, fold)| == |keys|
    ensures var members := Select(documents, Keyed(keys[i]), fold);
            KeyedGroups(keys, documents, fold)[i] == Group(Payer(HeadingOf(members)), members)
  {
    if i > 0 { KeyedAt(keys[1..], documents, fold, i - 1); } else { KeyedLength(keys, documents, fold); }
  }

  lemma {:induction false} KeyedLength(keys: seq<string>, documents: seq<Document>, fold: string -> string)
    ensures |KeyedGroups(keys, documents, fold)| == |keys|
  {
    if keys != [] { KeyedLength(keys[1..], documents, fold); }
  }

  /** The group of the `i`th key holds exactly the documents whose payer folds to it. */
  lemma GroupHoldsItsPayer(keys: seq<string>, documents: seq<Document>, fold: string -> string, i: nat, d: Document)
    requires i < |keys| && keys[i] != ""
    ensures i < |GroupsBy(keys, documents, fold)|
    ensures d in GroupsBy(keys, documents, fold)[i].documents <==> d in documents && FoldsTo(d, keys[i], fold)
  {
    KeyedAt(keys, documents, fold, i);
    SelectedExactly(documents, Keyed(keys[i]), fold, d);
    SlotByName(d, fold);
  }

  /**
   Behind the payers' groups come at most two: those whose case names no payer, headed so, then those
   without a suggestion under no heading; neither is there empty.
   */
  lemma TailsHoldTheRest(keys: seq<string>, documents: seq<Document>, fold: string -> string)
    ensures var (groups, n) := (GroupsBy(keys, documents, fold), |keys|);
            n <= |groups| <= n + 2 &&
            (forall i :: n <= i < |groups| ==> groups[i].documents != []) &&
            (|groups| == n + 2 ==> groups[n].heading == PayerNotNamed && groups[n + 1].heading == NoHeading) &&
            (|groups| == n + 1 ==> groups[n].heading == PayerNotNamed || groups[n].heading == NoHeading)
  {
    KeyedLength(keys, documents, fold);
  }

  lemma TailHolds(keys: seq<string>, documents: seq<Document>, fold: string -> string, d: Document)
    requires d in documents
    ensures var (groups, n) := (GroupsBy(keys, documents, fold), |keys|);
            (d.top.None? ==> |groups| > n && groups[|groups| - 1].heading == NoHeading && d in groups[|groups| - 1].documents) &&
            (d.top.Some? && (forall key :: key != "" ==> !FoldsTo(d, key, fold)) ==>
              |groups| > n && groups[n].heading == PayerNotNamed && d in groups[n].documents)
  {
    KeyedLength(keys, documents, fold);
    SlotByName(d, fold);
    SelectedExactly(documents, Unmatched, fold, d);
    SelectedExactly(documents, Unnamed, fold, d);
  }

  predicate HasDebtor(d: Document) {
    d.top.Some? && d.top.value.debtorName.Some?
  }

  /** The first of these whose case has a debtor, and its name. */
  predicate FirstDebtor(documents: seq<Document>, k: nat, name: string) {
    k < |documents| && HasDebtor(documents[k]) && documents[k].top.value.debtorName == Some(name) &&
    forall j :: 0 <= j < k ==> !HasDebtor(documents[j])
  }

  lemma {:induction false} FirstDebtorExactly(documents: seq<Document>, name: string)
    ensures FirstDebtorName(documents) == Some(name) <==> exists k: nat | k < |documents| :: FirstDebtor(documents, k, name)
    ensures FirstDebtorName(documents) == None <==> forall j :: 0 <= j < |documents| ==> !HasDebtor(documents[j])
  {
    if documents != [] {
      var init := documents[..|documents| - 1];
      FirstDebtorExactly(init, name);
      assert forall j :: 0 <= j < |init| ==> init[j] == documents[j];
      assert forall k: nat | k < |init| :: FirstDebtor(init, k, name) <==> FirstDebtor(documents, k, name);
      if FirstDebtorName(init) == None && FirstDebtorName(documents) == Some(name) { assert FirstDebtor(documents, |init|, name); }
    }
  }

  /** A group is headed by the first debtor's name among its documents, or else by its first document's printed name. */
  lemma HeadingExactly(documents: seq<Document>, name: string)
    requires documents != [] && forall d :: d in documents ==> exists payer :: NamesPayer(d, payer)
    ensures HeadingOf(documents) == Some(name) <==>
            (exists k: nat | k < |documents| :: FirstDebtor(documents, k, name)) ||
            ((forall j :: 0 <= j < |documents| ==> !HasDebtor(documents[j])) && NamesPayer(documents[0], name))
  {
    FirstDebtorExactly(documents, name);
    assert documents[0] in documents;
    var payer :| NamesPayer(documents[0], payer);
    if k: nat :| k < |documents| && FirstDebtor(documents, k, name) { assert HasDebtor(documents[k]); }
  }
}
