/**
 `zipEnclosures`: a packet's documents as one zip, written a document at a time as the client
 reads. The archive is the list of its entries. A pull is in two halves, because it waits for its
 document in between; a cancel may come while it waits, and what runs without waiting runs whole.

 A `char` stands for one UTF-16 unit of a file's name.
 */
module EnclosureZip {
  import Decimal

  datatype Option<+T> = None | Some(value: T)

  datatype Enclosure = Enclosure(filename: string, content: string, extract: Option<string>)

  datatype Entry = Entry(name: string, content: string)

  // -------------------------------------------------------------------------
  // Names
  // -------------------------------------------------------------------------

  const NAME_MAX := 120
  const EXTRACT_SUFFIX := ".case-row.csv"

  predicate IsWord(c: char) {
    'a' <= c <= 'z' || 'A' <= c <= 'Z' || '0' <= c <= '9' || c == '_'
  }

  /** The units left alone: letters, digits, `_`, `.`, `-` and space. */
  predicate IsPlain(c: char) {
    IsWord(c) || c == '.' || c == '-' || c == ' '
  }

  predicate AllPlain(s: string) {
    forall k :: 0 <= k < |s| ==> IsPlain(s[k])
  }

  function Replaced(s: string): (r: string)
    ensures AllPlain(r) && |r| == |s| && forall k :: 0 <= k < |s| ==> r[k] == if IsPlain(s[k]) then s[k] else '_'
  {
    seq(|s|, k requires 0 <= k < |s| => if IsPlain(s[k]) then s[k] else '_')
  }

  /** `replace(/^[.\s]+/, '')`, where a space is the only white space left. */
  function WithoutLeadingDots(s: string): (r: string)
    requires AllPlain(s)
    ensures AllPlain(r) && (r == [] || (r[0] != '.' && r[0] != ' '))
  {
    if s != [] && (s[0] == '.' || s[0] == ' ') then WithoutLeadingDots(s[1..]) else s
  }

  /** `trim()` of a name that does not start with white space. */
  function Trimmed(s: string): (r: string)
    ensures r <= s && (r == [] || r[|r| - 1] != ' ')
  {
    if s != [] && s[|s| - 1] == ' ' then Trimmed(s[..|s| - 1]) else s
  }

  function SafeName(filename: string): (r: string)
    ensures AllPlain(r) && |r| <= NAME_MAX && (r == [] || (r[0] != '.' && r[0] != ' ' && r[|r| - 1] != ' '))
  {
    var trimmed := Trimmed(WithoutLeadingDots(Replaced(filename)));
    Trimmed(if |trimmed| > NAME_MAX then trimmed[..NAME_MAX] else trimmed)
  }

  /** `String(index + 1).padStart(2, '0')`. */
  function Place(index: nat): (s: string)
    ensures |s| >= 2 && Decimal.AllDigits(s)
  {
    var digits := Decimal.Digits(index + 1);
    if |digits| < 2 then ['0'] + digits else digits
  }

  function EnclosureName(index: nat, filename: string): string {
    var safe := SafeName(filename);
    Place(index) + "-" + if safe == "" then "document" else safe
  }

  /** The digits a name starts with, before its first dash. */
  function LeadingDigits(name: string): (s: string)
    ensures Decimal.AllDigits(s) && s <= name
  {
    if name != [] && Decimal.IsDigit(name[0]) then [name[0]] + LeadingDigits(name[1..]) else []
  }

  lemma {:induction false} DigitsThenDash(digits: string, rest: string)
    requires Decimal.AllDigits(digits)
    ensures LeadingDigits(digits + "-" + rest) == digits
  {
    var name := digits + "-" + rest;
    if digits != [] {
      assert name[1..] == digits[1..] + "-" + rest;
      DigitsThenDash(digits[1..], rest);
    }
  }

  lemma PlaceReadsBack(index: nat)
    ensures Decimal.Value(Place(index)) == index + 1
  {
    Decimal.DigitsReadBack(index + 1);
    Decimal.LeadingZero(Decimal.Digits(index + 1));
  }

  /** An entry's place in the packet reads back from its name, extract or not, whatever the file was called. */
  lemma NameTellsPlace(index: nat, filename: string, suffix: string)
    ensures Decimal.Value(LeadingDigits(EnclosureName(index, filename) + suffix)) == index + 1
  {
    var safe := SafeName(filename);
    var rest := if safe == "" then "document" else safe;
    assert EnclosureName(index, filename) + suffix == Place(index) + "-" + (rest + suffix);
    DigitsThenDash(Place(index), rest + suffix);
    PlaceReadsBack(index);
  }

  /** No name is a path, hides itself, carries a control character or outgrows the zip's limit for one. */
  lemma NameIsPathFree(index: nat, filename: string)
    ensures var name := EnclosureName(index, filename);
            AllPlain(name) && '/' !in name && '\\' !in name && name[0] != '.' && name != "." && name != ".." &&
            |name| <= |Place(index)| + 1 + NAME_MAX
  {
    var name := EnclosureName(index, filename);
    assert name[0] == Place(index)[0];
    assert Decimal.IsDigit(name[0]);
  }

  // -------------------------------------------------------------------------
  // The archive of a packet
  // -------------------------------------------------------------------------

  function EntriesOf(index: nat, e: Enclosure): seq<Entry> {
    var name := EnclosureName(index, e.filename);
    [Entry(name, e.content)] + if e.extract.Some? then [Entry(name + EXTRACT_SUFFIX, e.extract.value)] else []
  }

  /** Every document in the packet's order, its extract right behind it. */
  function Archive(found: seq<Enclosure>): seq<Entry> {
    if found == [] then []
    else Archive(found[..|found| - 1]) + EntriesOf(|found| - 1, found[|found| - 1])
  }

  lemma ArchiveSnoc(found: seq<Enclosure>, e: Enclosure)
    ensures Archive(found + [e]) == Archive(found) + EntriesOf(|found|, e)
  {
    assert (found + [e])[..|found|] == found;
  }

  predicate NamesDistinct(entries: seq<Entry>) {
    forall i, j :: 0 <= i < j < |entries| ==> entries[i].name != entries[j].name
  }

  predicate NamedBelow(entries: seq<Entry>, n: nat) {
    forall i :: 0 <= i < |entries| ==> Decimal.Value(LeadingDigits(entries[i].name)) <= n
  }

  predicate NamedExactly(entries: seq<Entry>, n: nat) {
    forall i :: 0 <= i < |entries| ==> Decimal.Value(LeadingDigits(entries[i].name)) == n
  }

  lemma OneDocumentsNames(index: nat, e: Enclosure)
    ensures NamesDistinct(EntriesOf(index, e)) && NamedExactly(EntriesOf(index, e), index + 1)
  {
    var name := EnclosureName(index, e.filename);
    NameTellsPlace(index, e.filename, "");
    assert name + "" == name;
    if e.extract.Some? {
      NameTellsPlace(index, e.filename, EXTRACT_SUFFIX);
      Longer(name, EXTRACT_SUFFIX);
      TwoEntries(Entry(name, e.content), Entry(name + EXTRACT_SUFFIX, e.extract.value), index + 1);
    }
  }

  lemma TwoEntries(a: Entry, b: Entry, n: nat)
    requires Decimal.Value(LeadingDigits(a.name)) == n && Decimal.Value(LeadingDigits(b.name)) == n && a.name != b.name
    ensures NamesDistinct([a] + [b]) && NamedExactly([a] + [b], n)
  {
  }

  lemma Longer(name: string, suffix: string)
    requires suffix != ""
    ensures name + suffix != name
  {
    assert |name + suffix| > |name|;
  }

  lemma NamesJoin(a: seq<Entry>, b: seq<Entry>, n: nat)
    requires NamesDistinct(a) && NamedBelow(a, n) && NamesDistinct(b) && NamedExactly(b, n + 1)
    ensures NamesDistinct(a + b) && NamedBelow(a + b, n + 1)
  {
  }

  /** Pairwise distinct names, so no entry overwrites another when the zip is unpacked. */
  lemma {:induction false} ArchiveNamesDistinct(found: seq<Enclosure>)
    ensures NamesDistinct(Archive(found)) && NamedBelow(Archive(found), |found|)
  {
    if found != [] {
      var n := |found| - 1;
      ArchiveNamesDistinct(found[..n]);
      OneDocumentsNames(n, found[n]);
      NamesJoin(Archive(found[..n]), EntriesOf(n, found[n]), n);
    }
  }

  // -------------------------------------------------------------------------
  // The stream
  // -------------------------------------------------------------------------

  datatype StreamState = Readable | Closed | Errored | Cancelled

  datatype ZipState = Open | Ended | Terminated

  class EnclosureStream {
    const documents: seq<nat>
    var next: nat
    var finished: bool
    var doneRuns: nat
    var zip: ZipState
    var entries: seq<Entry>
    var state: StreamState
    /** The document a pull waits for. */
    var waitingFor: Option<nat>
    /** What the reads answered, in order. */
    ghost var found: seq<Enclosure>

    constructor (documents: seq<nat>)
      ensures Valid() && this.documents == documents && state.Readable? && next == 0 && waitingFor.None? && found == []
    {
      this.documents := documents;
      next, finished, doneRuns, zip, entries, state, waitingFor := 0, false, 0, Open, [], Readable, None;
      found := [];
    }

    /** `done` has run once when the stream has ended, and not before; a closed one read every document. */
    ghost predicate Standing()
      reads this
    {
      doneRuns == (if finished then 1 else 0) && (finished <==> !state.Readable?) &&
      next <= |documents| && |found| <= next &&
      (waitingFor.Some? ==> next > 0 && waitingFor.value == next - 1 && |found| == next - 1) &&
      (waitingFor.None? && state.Readable? ==> |found| == next) &&
      (zip.Terminated? <==> state.Cancelled?) && (zip.Ended? <==> state.Closed?) && (state.Errored? ==> waitingFor.None?) &&
      (state.Closed? ==> waitingFor.None? && next == |documents| == |found|)
    }

    /** And the archive is what was read. */
    ghost predicate Valid()
      reads this
    {
      Standing() && entries == Archive(found)
    }

    /** `finish`: the first call runs `done`, every other returns. */
    method Finish()
      modifies this`finished, this`doneRuns
      ensures finished && doneRuns == old(doneRuns) + if old(finished) then 0 else 1
    {
      if finished { return; }
      finished := true;
      doneRuns := doneRuns + 1;
    }

    /** `controller.error`, which an ended stream ignores. */
    method Fail()
      modifies this`state
      ensures state == if old(state).Readable? then Errored else old(state)
    {
      if state.Readable? { state := Errored; }
    }

    /**
     `zip.add` and `entry.push`: a zip that has ended or was terminated reports an error through its
     callback and never wires the entry, whose push then throws.
     */
    method Add(entry: Entry) returns (thrown: bool)
      modifies this`state, this`entries
      ensures thrown <==> !zip.Open?
      ensures !thrown ==> entries == old(entries) + [entry] && state == old(state)
      ensures thrown ==> entries == old(entries) && state == if old(state).Readable? then Errored else old(state)
    {
      if !zip.Open? {
        Fail();
        return true;
      }
      entries := entries + [entry];
      return false;
    }

    /** A document's entry, and its extract's behind it. */
    method AddEnclosure(index: nat, e: Enclosure) returns (thrown: bool)
      modifies this`state, this`entries
      ensures thrown <==> !zip.Open?
      ensures !thrown ==> entries == old(entries) + EntriesOf(index, e) && state == old(state)
      ensures thrown ==> entries == old(entries) && state == if old(state).Readable? then Errored else old(state)
    {
      var name := EnclosureName(index, e.filename);
      thrown := Add(Entry(name, e.content));
      if !thrown && e.extract.Some? {
        thrown := Add(Entry(name + EXTRACT_SUFFIX, e.extract.value));
      }
    }

    /** The first half of a pull, which the runtime asks only of a readable stream with none under way. */
    method PullStart()
      requires Valid() && state.Readable? && waitingFor.None?
      modifies this
      ensures Valid() && found == old(found) && entries == old(entries)
      ensures old(next) == |documents| ==> state.Closed? && doneRuns == 1 && waitingFor.None?
      ensures old(next) < |documents| ==> state.Readable? && waitingFor == Some(old(next)) && next == old(next) + 1
    {
      if next >= |documents| {
        zip := Ended;
        state := Closed;
        Finish();
        return;
      }
      waitingFor := Some(next);
      next := next + 1;
    }

    /** The second half, when the read has answered; `None` is a document it could not find, or its failure. */
    method PullResume(enclosure: Option<Enclosure>)
      requires Valid() && waitingFor.Some?
      modifies this
      ensures Valid() && waitingFor.None? && next == old(next)
      ensures old(state).Readable? && enclosure.Some? ==>
                state.Readable? && found == old(found) + [enclosure.value] &&
                entries == old(entries) + EntriesOf(old(waitingFor).value, enclosure.value)
      ensures old(state).Readable? && enclosure.None? ==> state.Errored? && entries == old(entries) && found == old(found)
      ensures !old(state).Readable? ==>
                state == old(state) && entries == old(entries) && found == old(found) && doneRuns == 1
    {
      if enclosure.Some? { ArchiveSnoc(found, enclosure.value); }
      WriteOrFail(enclosure);
    }

    method WriteOrFail(enclosure: Option<Enclosure>)
      requires Standing() && waitingFor.Some?
      modifies this
      ensures Standing() && waitingFor.None? && next == old(next)
      ensures old(state).Readable? && enclosure.Some? ==>
                state.Readable? && found == old(found) + [enclosure.value] &&
                entries == old(entries) + EntriesOf(old(waitingFor).value, enclosure.value)
      ensures !old(state).Readable? || enclosure.None? ==>
                state == (if old(state).Readable? then Errored else old(state)) &&
                entries == old(entries) && found == old(found)
    {
      var index := waitingFor.value;
      waitingFor := None;
      var thrown := enclosure.None?;
      if !thrown {
        thrown := AddEnclosure(index, enclosure.value);
      }
      if thrown {
        Fail();
        Finish();
      } else {
        found := found + [enclosure.value];
      }
    }

    /** `cancel`, which the runtime calls at most once, on a readable stream, a pull under way or not. */
    method Cancel()
      requires Valid() && state.Readable?
      modifies this
      ensures Valid() && state.Cancelled? && doneRuns == 1 && entries == old(entries) && waitingFor == old(waitingFor) && found == old(found)
    {
      zip := Terminated;
      state := Cancelled;
      Finish();
    }
  }

  /** What the world does next: asks for more, answers the read a pull waits for or fails it, or cancels. */
  datatype Event = PullNow | AnswerNow | FailRead | CancelNow

  /** What a read finds under each id; `None` is a document that is not there. */
  type Library = nat -> Option<Enclosure>

  predicate FoundIn(library: Library, documents: seq<nat>, found: seq<Enclosure>) {
    |found| <= |documents| && forall k :: 0 <= k < |found| ==> library(documents[k]) == Some(found[k])
  }

  /** Every listed document is there, and these are they, in the list's order. */
  predicate IsPacket(library: Library, documents: seq<nat>, found: seq<Enclosure>) {
    |found| == |documents| && FoundIn(library, documents, found)
  }

  /** One event; one the stream is not ready for does nothing. */
  method OneEvent(stream: EnclosureStream, library: Library, e: Event)
    requires stream.Valid() && FoundIn(library, stream.documents, stream.found)
    modifies stream
    ensures stream.Valid() && FoundIn(library, stream.documents, stream.found)
  {
    match e
    case PullNow => if stream.state.Readable? && stream.waitingFor.None? { stream.PullStart(); }
    case AnswerNow =>
      if stream.waitingFor.Some? {
        var enclosure := library(stream.documents[stream.waitingFor.value]);
        stream.PullResume(enclosure);
      }
    case FailRead => if stream.waitingFor.Some? { stream.PullResume(None); }
    case CancelNow => if stream.state.Readable? { stream.Cancel(); }
  }

  /**
   A stream read to its end under any interleaving of pull halves, reads that fail and cancels. A
   closed stream is the archive of the listed documents; one with a document missing never closes.
   */
  method Drive(documents: seq<nat>, library: Library, events: seq<Event>) returns (stream: EnclosureStream)
    ensures stream.Valid() && stream.documents == documents
    ensures stream.doneRuns == if stream.state.Readable? then 0 else 1
    ensures stream.state.Closed? ==>
              IsPacket(library, documents, stream.found) && stream.entries == Archive(stream.found) && NamesDistinct(stream.entries)
    ensures stream.state.Closed? ==> forall k :: 0 <= k < |documents| ==> library(documents[k]).Some?
  {
    stream := new EnclosureStream(documents);
    for k := 0 to |events|
      invariant stream.Valid() && stream.documents == documents && fresh(stream)
      invariant FoundIn(library, documents, stream.found)
    {
      OneEvent(stream, library, events[k]);
    }
    ArchiveNamesDistinct(stream.found);
  }

  /** The archive of a packet is decided by its list and what the ids name. */
  lemma {:induction false} PacketIsUnique(library: Library, documents: seq<nat>, a: seq<Enclosure>, b: seq<Enclosure>)
    requires IsPacket(library, documents, a) && IsPacket(library, documents, b)
    ensures a == b
  {
    forall k | 0 <= k < |a| ensures a[k] == b[k] {
      assert library(documents[k]) == Some(a[k]) == Some(b[k]);
    }
  }
}
