/** What may be echoed of a refused form, and searched for in the ledger, said by its characters. */
module FormRules {
  import opened QueryText
  import opened CaseForms
  import ReadKeys

  // -------------------------------------------------------------------------
  // Lengths
  // -------------------------------------------------------------------------

  /** A text's UTF-16 length is that of its parts together: one for each character below 0x10000, two for any other. */
  lemma {:induction false} UnitsJoin(a: string, b: string)
    ensures Units(a + b) == Units(a) + Units(b)
  {
    if a == "" {
      assert a + b == b;
    } else {
      assert (a + b)[1..] == a[1..] + b;
      UnitsJoin(a[1..], b);
    }
  }

  lemma UnitsOfOne(c: char)
    ensures Units([c]) == if c as int < 0x10000 then 1 else 2
  {
    assert [c][1..] == "";
  }

  // -------------------------------------------------------------------------
  // The echoed fields
  // -------------------------------------------------------------------------

  /** A control character that no field may hold: any below 0x20 but a line feed and a carriage return, and 0x7f. */
  predicate IsForbidden(c: char) {
    var n := c as int;
    n == 0x7f || (n < 0x20 && n != 10 && n != 13)
  }

  /**
   A value is kept exactly when it is not empty, at most 600 units long, holds no forbidden character
   and, where the field is an id, is a UUID.
   */
  lemma KeepsExactly(f: Field, value: string)
    ensures Keeps(f, value) <==>
            |value| > 0 && Units(value) <= 600 && (forall k :: 0 <= k < |value| ==> !IsForbidden(value[k])) &&
            (f == DebtorId || f == EndRetailerDebtorId || f == AssigneeId ==> ReadKeys.IsUuid(value))
  {
  }

  /** The redirect names its notice, and the refused field where there is one. */
  lemma NoticeReadsBack(notice: string, values: map<Field, string>, field: Option<Field>)
    ensures var pairs := Parsed(Serialized(NoticePairs(notice, field) + EchoPairs(values, NEW_CASE_FIELDS)));
            Lookup(pairs, "nc") == One(notice) &&
            Lookup(pairs, "field") == if field.Some? then One(NameOf(field.value)) else Absent
  {
    var echoed := EchoPairs(values, NEW_CASE_FIELDS);
    SerializedReadsBack(NoticePairs(notice, field) + echoed);
    NoNoticeEchoed(values, NEW_CASE_FIELDS);
    var all := NoticePairs(notice, field) + echoed;
    if field.None? {
      assert all[1..] == echoed;
    } else {
      assert all[1..][0] == Pair("field", NameOf(field.value)) && all[1..][1..] == echoed;
    }
    assert "nc" != "field";
  }

  lemma {:induction false} NoNoticeEchoed(values: map<Field, string>, fields: seq<Field>)
    ensures Lookup(EchoPairs(values, fields), "nc") == Absent && Lookup(EchoPairs(values, fields), "field") == Absent
  {
    if fields != [] {
      NoNoticeEchoed(values, fields[1..]);
      NamesAreNoNotice(fields[0]);
      var pairs := EchoPairs(values, fields);
      if KeptOf(fields[0], Typed(values, fields[0])).Some? { assert pairs[1..] == EchoPairs(values, fields[1..]); }
      else { assert pairs == EchoPairs(values, fields[1..]); }
    }
  }

  /** The echoed fields travel under these names, in this order. */
  lemma FieldNames()
    ensures |NEW_CASE_FIELDS| == 11 &&
            seq(11, i requires 0 <= i < 11 => NameOf(NEW_CASE_FIELDS[i])) ==
            ["debtorId", "deductionReference", "amount", "deductionDate", "reasonCode", "invoiceNumbers", "poNumber",
             "paymentReference", "disputeAmount", "endRetailerDebtorId", "assigneeId"]
  {
  }

  predicate IsAlphaNumeric(c: char) {
    'A' <= c <= 'Z' || 'a' <= c <= 'z' || '0' <= c <= '9'
  }

  lemma HexDigits(n: nat)
    requires n < 16
    ensures HexChar(n) == "0123456789ABCDEF"[n]
  {
  }

  /** Each byte of a form: as itself if it is a letter, a digit or one of four marks, a space as a plus, else by its hex digits. */
  lemma FormBytesWritten(b: Byte)
    ensures var c := b as char;
            EncodeByte(Form, b) ==
            if IsAlphaNumeric(c) || c == '*' || c == '-' || c == '.' || c == '_' then [c]
            else if c == ' ' then "+" else ['%', HexChar(b / 16), HexChar(b % 16)]
  {
  }

  /** In a component nine marks are left alone, and a space is not. */
  lemma ComponentBytesWritten(b: Byte)
    ensures var c := b as char;
            EncodeByte(Component, b) ==
            if IsAlphaNumeric(c) || c == '-' || c == '_' || c == '.' || c == '!' || c == '~' || c == '*' || c == '\'' || c == '(' || c == ')'
            then [c] else ['%', HexChar(b / 16), HexChar(b % 16)]
  {
  }

  /** Hex digits are read in either case. */
  lemma HexDigitsRead(n: nat)
    requires n < 16
    ensures IsHexChar("0123456789ABCDEF"[n]) && HexValue("0123456789ABCDEF"[n]) == n
    ensures IsHexChar("0123456789abcdef"[n]) && HexValue("0123456789abcdef"[n]) == n
  {
  }

  /** How many pairs have this name. */
  function Named(pairs: seq<Pair>, name: string): nat {
    if pairs == [] then 0 else (if pairs[0].name == name then 1 else 0) + Named(pairs[1..], name)
  }

  /** A parameter is the value of its only pair, absent without one and many with more. */
  lemma {:induction false} LookupExactly(pairs: seq<Pair>, name: string)
    ensures Lookup(pairs, name) == Absent <==> Named(pairs, name) == 0
    ensures Lookup(pairs, name) == Many <==> Named(pairs, name) > 1
    ensures Lookup(pairs, name).One? ==> Pair(name, Lookup(pairs, name).value) in pairs
  {
    if pairs != [] {
      LookupExactly(pairs[1..], name);
      assert pairs == [pairs[0]] + pairs[1..];
    }
  }

  /** Empty pieces between ampersands are no pairs. */
  lemma EmptyPiecesAreSkipped(query: string)
    ensures Parsed("&" + query) == Parsed(query)
  {
    var all := "&" + query;
    CutIs(all, '&', 0);
    assert all[1..] == query;
  }

  // -------------------------------------------------------------------------
  // The ledger's query
  // -------------------------------------------------------------------------

  /** The twenty-five characters that trimming takes off. */
  lemma SpacesAre(c: char)
    ensures IsSpace(c) <==>
            c as int in [9, 10, 11, 12, 13, 32, 160, 5760, 8192, 8193, 8194, 8195, 8196, 8197, 8198, 8199, 8200, 8201, 8202,
                         8232, 8233, 8239, 8287, 12288, 65279]
  {
  }

  lemma {:induction false} TrimStartExactly(s: string) returns (n: nat)
    ensures n <= |s| && TrimStart(s) == s[n..] && forall k :: 0 <= k < n ==> IsSpace(s[k])
  {
    n := 0;
    if s != "" && IsSpace(s[0]) {
      var m := TrimStartExactly(s[1..]);
      n := m + 1;
      assert s[1..][m..] == s[n..];
      forall k | 0 <= k < n ensures IsSpace(s[k]) {
        if k > 0 { assert s[1..][k - 1] == s[k]; }
      }
    }
  }

  lemma {:induction false} TrimEndExactly(s: string)
    ensures forall k :: |TrimEnd(s)| <= k < |s| ==> IsSpace(s[k])
  {
    if s != "" && IsSpace(s[|s| - 1]) { TrimEndExactly(s[..|s| - 1]); }
  }

  /** A text is its trimmed middle between spaces, and the middle neither starts nor ends with one. */
  lemma TrimExactly(s: string) returns (n: nat)
    ensures n + |Trim(s)| <= |s| && Trim(s) == s[n..n + |Trim(s)|]
    ensures forall k :: 0 <= k < n || n + |Trim(s)| <= k < |s| ==> IsSpace(s[k])
    ensures Trim(s) != "" ==> !IsSpace(Trim(s)[0]) && !IsSpace(Trim(s)[|Trim(s)| - 1])
  {
    n := TrimStartExactly(s);
    var rest := s[n..];
    TrimEndExactly(rest);
    var r := Trim(s);
    assert r == rest[..|r|];
    forall k | n + |r| <= k < |s| ensures IsSpace(s[k]) { assert rest[k - n] == s[k]; }
    if r != "" { assert r[0] == rest[0]; }
  }

  /** A page's query is kept exactly when, trimmed, it is not empty, at most 200 units long and free of control characters. */
  lemma LedgerQueryExactly(q: Param, query: string)
    ensures LedgerQuery(q) == Some(query) <==>
            q.One? && query == Trim(q.value) && |query| > 0 && Units(query) <= 200 &&
            forall k :: 0 <= k < |query| ==> query[k] as int >= 0x20 && query[k] as int != 0x7f
  {
  }
}
