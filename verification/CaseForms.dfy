/**
 What a refused new-case form echoes through its redirect (`newCaseTarget`, `prefillFrom`), and the
 link to a ledger search (`ledgerSearchHref`, `ledgerFilterFrom`). A `char` is a Unicode scalar
 value, counted as the one or two UTF-16 units it takes.
 */
module CaseForms {
  import opened QueryText
  import ReadKeys

  datatype Field =
    | DebtorId | DeductionReference | Amount | DeductionDate | ReasonCode | InvoiceNumbers | PoNumber
    | PaymentReference | DisputeAmount | EndRetailerDebtorId | Notes | AssigneeId

  /** The fields that may be echoed; never the notes. */
  const NEW_CASE_FIELDS: seq<Field> :=
    [DebtorId, DeductionReference, Amount, DeductionDate, ReasonCode, InvoiceNumbers, PoNumber,
     PaymentReference, DisputeAmount, EndRetailerDebtorId, AssigneeId]

  function NameOf(f: Field): string {
    match f
    case DebtorId => "debtorId"
    case DeductionReference => "deductionReference"
    case Amount => "amount"
    case DeductionDate => "deductionDate"
    case ReasonCode => "reasonCode"
    case InvoiceNumbers => "invoiceNumbers"
    case PoNumber => "poNumber"
    case PaymentReference => "paymentReference"
    case DisputeAmount => "disputeAmount"
    case EndRetailerDebtorId => "endRetailerDebtorId"
    case Notes => "notes"
    case AssigneeId => "assigneeId"
  }

  const ECHO_MAX := 600

  /** A string's length in UTF-16 units. */
  function Units(s: string): nat {
    if s == "" then 0 else (if s[0] as int < 0x10000 then 1 else 2) + Units(s[1..])
  }

  predicate IsControl(c: char) {
    (c as int) < 0x20 || c as int == 0x7f
  }

  /** Line breaks are let through: invoice numbers may be one a line. */
  predicate HasControl(s: string) {
    exists k :: 0 <= k < |s| && IsControl(s[k]) && s[k] != '\n' && s[k] != '\r'
  }

  predicate IsIdField(f: Field) {
    f.DebtorId? || f.EndRetailerDebtorId? || f.AssigneeId?
  }

  /** `keep`, of a value that is one string. */
  predicate Keeps(f: Field, value: string) {
    value != "" && Units(value) <= ECHO_MAX && !HasControl(value) && (IsIdField(f) ==> ReadKeys.IsUuid(value))
  }

  function KeptOf(f: Field, value: Param): Option<string> {
    if value.One? && Keeps(f, value.value) then Some(value.value) else None
  }

  function Typed(values: map<Field, string>, f: Field): Param {
    if f in values then One(values[f]) else Absent
  }

  /** The pairs of the echoed fields, in the fields' order. */
  function EchoPairs(values: map<Field, string>, fields: seq<Field>): seq<Pair> {
    if fields == [] then []
    else
      var kept := KeptOf(fields[0], Typed(values, fields[0]));
      (if kept.Some? then [Pair(NameOf(fields[0]), kept.value)] else []) + EchoPairs(values, fields[1..])
  }

  function NoticePairs(notice: string, field: Option<Field>): seq<Pair> {
    [Pair("nc", notice)] + if field.Some? then [Pair("field", NameOf(field.value))] else []
  }

  /** `newCaseTarget`: the redirect's query, field by field. */
  method NewCaseTarget(notice: string, values: map<Field, string>, field: Option<Field>) returns (query: string)
    ensures query == Serialized(NoticePairs(notice, field) + EchoPairs(values, NEW_CASE_FIELDS))
  {
    var echoed := Echo(values, NEW_CASE_FIELDS);
    query := Serialized(NoticePairs(notice, field) + echoed);
  }

  lemma EchoStep(values: map<Field, string>, fields: seq<Field>, i: nat, pairs: seq<Pair>)
    requires i < |fields|
    ensures var kept := KeptOf(fields[i], Typed(values, fields[i]));
            pairs + EchoPairs(values, fields[i..]) ==
            (if kept.Some? then pairs + [Pair(NameOf(fields[i]), kept.value)] else pairs) + EchoPairs(values, fields[i + 1..])
  {
    assert fields[i..][0] == fields[i] && fields[i..][1..] == fields[i + 1..];
  }

  method Echo(values: map<Field, string>, fields: seq<Field>) returns (pairs: seq<Pair>)
    ensures pairs == EchoPairs(values, fields)
  {
    pairs := [];
    assert fields[0..] == fields;
    for i := 0 to |fields|
      invariant pairs + EchoPairs(values, fields[i..]) == EchoPairs(values, fields)
    {
      EchoStep(values, fields, i, pairs);
      var kept := KeptOf(fields[i], Typed(values, fields[i]));
      if kept.Some? {
        pairs := pairs + [Pair(NameOf(fields[i]), kept.value)];
      }
    }
    assert EchoPairs(values, fields[|fields|..]) == [];
  }

  /** `prefillFrom`: what the dialog opens with, from the page's query. */
  method PrefillFrom(pairs: seq<Pair>) returns (prefill: map<Field, string>)
    ensures forall f :: f in prefill <==> f in NEW_CASE_FIELDS && KeptOf(f, Lookup(pairs, NameOf(f))).Some?
    ensures forall f :: f in prefill ==> Lookup(pairs, NameOf(f)) == One(prefill[f]) && Keeps(f, prefill[f])
  {
    prefill := map[];
    var fields := NEW_CASE_FIELDS;
    for i := 0 to |fields|
      invariant forall f :: f in prefill <==> f in fields[..i] && KeptOf(f, Lookup(pairs, NameOf(f))).Some?
      invariant forall f :: f in prefill ==> Lookup(pairs, NameOf(f)) == One(prefill[f]) && Keeps(f, prefill[f])
    {
      assert fields[..i + 1] == fields[..i] + [fields[i]];
      var kept := KeptOf(fields[i], Lookup(pairs, NameOf(fields[i])));
      if kept.Some? { prefill := prefill[fields[i] := kept.value]; }
    }
    assert fields[..|fields|] == fields;
  }

  // -------------------------------------------------------------------------
  // What is echoed is what comes back
  // -------------------------------------------------------------------------

  lemma NamesDiffer(f: Field, g: Field)
    requires f != g
    ensures NameOf(f) != NameOf(g)
  {
  }

  lemma NamesAreNoNotice(f: Field)
    ensures NameOf(f) != "nc" && NameOf(f) != "field"
  {
    assert |NameOf(f)| > 2;
    assert NameOf(f)[0] != 'f';
  }

  predicate NoRepeat(fields: seq<Field>) {
    forall i, j :: 0 <= i < j < |fields| ==> fields[i] != fields[j]
  }

  lemma {:induction false} EchoLookup(values: map<Field, string>, fields: seq<Field>, f: Field)
    requires NoRepeat(fields)
    ensures Lookup(EchoPairs(values, fields), NameOf(f)) ==
            var kept := KeptOf(f, Typed(values, f));
            if f in fields && kept.Some? then One(kept.value) else Absent
  {
    if fields != [] {
      EchoLookup(values, fields[1..], f);
      var (g, rest) := (fields[0], EchoPairs(values, fields[1..]));
      assert fields == [g] + fields[1..];
      var kept := KeptOf(g, Typed(values, g));
      if kept.Some? {
        assert EchoPairs(values, fields)[1..] == rest;
      } else {
        assert EchoPairs(values, fields) == rest;
      }
      if f != g { NamesDiffer(f, g); }
    }
  }

  lemma NoticeLookup(notice: string, field: Option<Field>, echoed: seq<Pair>, f: Field)
    ensures Lookup(NoticePairs(notice, field) + echoed, NameOf(f)) == Lookup(echoed, NameOf(f))
  {
    NamesAreNoNotice(f);
    var all := NoticePairs(notice, field) + echoed;
    if field.None? {
      assert all[1..] == echoed;
    } else {
      assert all[1..][0] == Pair("field", NameOf(field.value)) && all[1..][1..] == echoed;
    }
  }

  /**
   Reading a refused form's redirect back gives exactly the fields that may be echoed: each one typed
   and kept comes back as typed, no other comes back, and the notes never do.
   */
  lemma EchoReadsBack(notice: string, values: map<Field, string>, field: Option<Field>, f: Field)
    ensures var pairs := Parsed(Serialized(NoticePairs(notice, field) + EchoPairs(values, NEW_CASE_FIELDS)));
            Lookup(pairs, NameOf(f)) ==
            if f != Notes && f in values && Keeps(f, values[f]) then One(values[f]) else Absent
  {
    FieldsButNotes();
    EchoOf(notice, values, field, NEW_CASE_FIELDS, f);
  }

  lemma FieldsButNotes()
    ensures NoRepeat(NEW_CASE_FIELDS) && forall f: Field :: f in NEW_CASE_FIELDS <==> f != Notes
  {
  }

  lemma EchoOf(notice: string, values: map<Field, string>, field: Option<Field>, fields: seq<Field>, f: Field)
    requires NoRepeat(fields)
    ensures Lookup(Parsed(Serialized(NoticePairs(notice, field) + EchoPairs(values, fields))), NameOf(f)) ==
            if f in fields && f in values && Keeps(f, values[f]) then One(values[f]) else Absent
  {
    SerializedReadsBack(NoticePairs(notice, field) + EchoPairs(values, fields));
    NoticeLookup(notice, field, EchoPairs(values, fields), f);
    EchoLookup(values, fields, f);
  }

  /** The two halves together: the dialog opens with what `keep` admits of what was typed. */
  method EchoThroughRedirect(notice: string, values: map<Field, string>, field: Option<Field>) returns (prefill: map<Field, string>)
    ensures forall f :: f in prefill <==> f != Notes && f in values && Keeps(f, values[f])
    ensures forall f :: f in prefill ==> prefill[f] == values[f]
  {
    var query := NewCaseTarget(notice, values, field);
    prefill := PrefillFrom(Parsed(query));
    FieldsButNotes();
    forall f: Field
      ensures Lookup(Parsed(query), NameOf(f)) == if f != Notes && f in values && Keeps(f, values[f]) then One(values[f]) else Absent
    {
      EchoReadsBack(notice, values, field, f);
    }
  }

  // -------------------------------------------------------------------------
  // A link to a ledger search
  // -------------------------------------------------------------------------

  const CASE_SEARCH_QUERY_MAX := 200

  /** What `trim` takes off. */
  predicate IsSpace(c: char) {
    var n := c as int;
    0x09 <= n <= 0x0d || n == 0x20 || n == 0xa0 || n == 0x1680 || 0x2000 <= n <= 0x200a || n == 0x2028 || n == 0x2029 ||
    n == 0x202f || n == 0x205f || n == 0x3000 || n == 0xfeff
  }

  function TrimStart(s: string): (r: string)
    ensures r == "" || !IsSpace(r[0])
    ensures s != "" && !IsSpace(s[0]) ==> r == s
    ensures s != "" && !IsSpace(s[|s| - 1]) ==> r != "" && r[|r| - 1] == s[|s| - 1]
  {
    if s != "" && IsSpace(s[0]) then TrimStart(s[1..]) else s
  }

  function TrimEnd(s: string): (r: string)
    ensures r <= s && (r == "" || !IsSpace(r[|r| - 1]))
    ensures s != "" && !IsSpace(s[|s| - 1]) ==> r == s
  {
    if s != "" && IsSpace(s[|s| - 1]) then TrimEnd(s[..|s| - 1]) else s
  }

  function Trim(s: string): string {
    TrimEnd(TrimStart(s))
  }

  lemma TrimOnce(s: string)
    ensures Trim(Trim(s)) == Trim(s)
  {
    var r := Trim(s);
    if r != "" { assert r[0] == TrimStart(s)[0]; }
  }

  predicate AnyControl(s: string) {
    exists k :: 0 <= k < |s| && IsControl(s[k])
  }

  /** `ledgerFilterFrom`'s query, of what `q=` carried. */
  function LedgerQuery(q: Param): Option<string> {
    var query := if q.One? then Trim(q.value) else "";
    if query != "" && Units(query) <= CASE_SEARCH_QUERY_MAX && !AnyControl(query) then Some(query) else None
  }

  /** `ledgerSearchHref`. */
  function LedgerSearchHref(text: string): Option<string> {
    var query := LedgerQuery(One(text));
    if query.None? then None else Some("/?" + ("q=" + Encode(Component, query.value)) + "#ledger")
  }

  lemma HrefQuery(query: string)
    requires forall k :: 0 <= k < |query| ==> query[k] != '#'
    ensures QueryOf("/?" + query + "#ledger") == query
  {
    var href := "/?" + query + "#ledger";
    CutIs(href, '?', 1);
    var from := href[2..];
    assert from == query + "#ledger";
    CutIs(from, '#', |query|);
  }

  lemma OneValueReadsBack(value: string)
    ensures Parsed("q=" + Encode(Component, value)) == [Pair("q", value)]
  {
    var encoded := Encode(Component, value);
    EncodedReadsBack(Component, value);
    LetterQ();
    NameAndValue("q", encoded);
    assert "q" + "=" == "q=";
    ValueHasNoParts(value);
    LastPiece("q=" + encoded);
  }

  lemma ValueHasNoParts(value: string)
    ensures var query := "q=" + Encode(Component, value);
            query != "" && forall k :: 0 <= k < |query| ==> query[k] != '#' && query[k] != '&'
  {
    var encoded := Encode(Component, value);
    EncodedPartsNothing(Component, Utf8(value));
    var query := "q=" + encoded;
    forall k | 0 <= k < |query| ensures query[k] != '#' && query[k] != '&' {
      if k >= 2 { assert query[k] == encoded[k - 2]; }
    }
  }

  lemma NameAndValue(name: string, encoded: string)
    requires forall k :: 0 <= k < |name| ==> name[k] != '='
    ensures PairOf(name + "=" + encoded) == Pair(Decode(name), Decode(encoded))
  {
    var piece := name + "=" + encoded;
    assert piece[|name|] == '=' && piece[..|name|] == name && piece[|name| + 1..] == encoded;
    CutIs(piece, '=', |name|);
  }

  lemma LetterQ()
    ensures Decode("q") == "q"
  {
    assert "q"[1..] == "" && DecodeBytes("q") == [0x71] && [0x71][..1] == [0x71];
    assert Scalar([0x71]) == 0x71;
  }

  /** A ledger link is the search it was made from: the page reads the very query back, and a text the page would drop has no link. */
  lemma LedgerLinkReadsBack(text: string)
    ensures LedgerSearchHref(text).Some? <==> LedgerQuery(One(text)).Some?
    ensures LedgerSearchHref(text).Some? ==>
              LedgerQuery(Lookup(Parsed(QueryOf(LedgerSearchHref(text).value)), "q")) == LedgerQuery(One(text))
  {
    var query := LedgerQuery(One(text));
    if query.Some? {
      OneValueReadsBack(query.value);
      ValueHasNoParts(query.value);
      HrefQuery("q=" + Encode(Component, query.value));
      TrimOnce(text);
    }
  }
}
