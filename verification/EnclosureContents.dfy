/** What a packet's archive holds, by the files' own names and contents. */
module EnclosureContents {
  import opened EnclosureZip
  import Decimal

  /** A file name's unit as a zip entry keeps it. */
  function Kept(c: char): char {
    if 'a' <= c <= 'z' || 'A' <= c <= 'Z' || '0' <= c <= '9' || c == '_' || c == '.' || c == '-' || c == ' ' then c else '_'
  }

  lemma {:induction false} LeadingDropped(s: string, k: nat)
    requires AllPlain(s) && k <= |s| && (forall j :: 0 <= j < k ==> s[j] == '.' || s[j] == ' ')
    requires k < |s| ==> s[k] != '.' && s[k] != ' '
    ensures WithoutLeadingDots(s) == s[k..]
  {
    if k > 0 { LeadingDropped(s[1..], k - 1); }
  }

  lemma {:induction false} OnlySpacesTrimmed(s: string)
    ensures forall j :: |Trimmed(s)| <= j < |s| ==> s[j] == ' '
  {
    if s != [] && s[|s| - 1] == ' ' { OnlySpacesTrimmed(s[..|s| - 1]); }
  }

  /** What is cut off the end of a name: spaces, and whatever is past its hundred and twentieth unit. */
  lemma TrimmedAndCut(rest: string)
    ensures var trimmed := Trimmed(rest);
            var r := Trimmed(if |trimmed| > NAME_MAX then trimmed[..NAME_MAX] else trimmed);
            r <= rest && |r| <= 120 && forall j :: |r| <= j < |rest| && j < 120 ==> rest[j] == ' '
  {
    var trimmed := Trimmed(rest);
    var cut := if |trimmed| > NAME_MAX then trimmed[..NAME_MAX] else trimmed;
    OnlySpacesTrimmed(rest);
    OnlySpacesTrimmed(cut);
  }

  function KeptFrom(filename: string, k: nat): (kept: string)
    requires k <= |filename|
    ensures |kept| == |filename| - k && forall j :: 0 <= j < |kept| ==> kept[j] == Kept(filename[k + j])
  {
    seq(|filename| - k, j requires 0 <= j < |filename| - k => Kept(filename[k + j]))
  }

  lemma ReplacedIsKept(filename: string, k: nat)
    requires k <= |filename|
    ensures Replaced(filename)[k..] == KeptFrom(filename, k)
    ensures forall j :: 0 <= j < |filename| ==> Replaced(filename)[j] == Kept(filename[j])
  {
  }

  lemma NameAfterDots(filename: string, k: nat)
    requires k <= |filename| && (forall j :: 0 <= j < k ==> Kept(filename[j]) == '.' || Kept(filename[j]) == ' ')
    requires k < |filename| ==> Kept(filename[k]) != '.' && Kept(filename[k]) != ' '
    ensures WithoutLeadingDots(Replaced(filename)) == KeptFrom(filename, k)
  {
    ReplacedIsKept(filename, k);
    LeadingDropped(Replaced(filename), k);
  }

  /**
   What is left of a file's name: from its first unit that is no dot and no space, with every unit but
   letters, digits, `_`, `.`, `-` and space made a `_`, at most 120 of them, without spaces at its end.
   */
  lemma SafeNameExactly(filename: string, k: nat)
    requires k <= |filename| && (forall j :: 0 <= j < k ==> Kept(filename[j]) == '.' || Kept(filename[j]) == ' ')
    requires k < |filename| ==> Kept(filename[k]) != '.' && Kept(filename[k]) != ' '
    ensures var (r, kept) := (SafeName(filename), KeptFrom(filename, k));
            r <= kept && |r| <= 120 && (r != "" ==> r[|r| - 1] != ' ') &&
            forall j :: |r| <= j < |kept| && j < 120 ==> kept[j] == ' '
  {
    NameAfterDots(filename, k);
    TrimmedAndCut(KeptFrom(filename, k));
  }

  lemma {:induction false} DigitsOf(n: nat)
    ensures |Decimal.Digits(n)| == 1 <==> n < 10
    ensures |Decimal.Digits(n)| <= 2 <==> n < 100
  {
    if n >= 10 { DigitsOf(n / 10); }
  }

  /** A place has two digits up to the ninety-ninth document, and no zero in front from there on. */
  lemma PlaceExactly(index: nat)
    ensures if index < 99 then |Place(index)| == 2 else Place(index) == Decimal.Digits(index + 1) && |Place(index)| > 2
  {
    DigitsOf(index + 1);
  }

  /** The extracts among these documents. */
  function Extracts(found: seq<Enclosure>): nat {
    if found == [] then 0 else Extracts(found[..|found| - 1]) + if found[|found| - 1].extract.Some? then 1 else 0
  }

  /** A document's entry has its content under its own name; an extract's is right behind, under that name and a suffix. */
  lemma EntriesExactly(i: nat, e: Enclosure)
    ensures var entries := EntriesOf(i, e);
            |entries| == (if e.extract.Some? then 2 else 1) &&
            entries[0].name == EnclosureName(i, e.filename) && entries[0].content == e.content &&
            (e.extract.Some? ==> entries[1].name == entries[0].name + EXTRACT_SUFFIX && entries[1].content == e.extract.value)
    ensures EXTRACT_SUFFIX == ".case-row.csv"
  {
  }

  function Parts(found: seq<Enclosure>): (parts: seq<seq<Entry>>)
    ensures |parts| == |found| && forall i :: 0 <= i < |found| ==> parts[i] == EntriesOf(i, found[i])
  {
    seq(|found|, i requires 0 <= i < |found| => EntriesOf(i, found[i]))
  }

  function Flat<T>(parts: seq<seq<T>>): seq<T> {
    if parts == [] then [] else Flat(parts[..|parts| - 1]) + parts[|parts| - 1]
  }

  /** These stand at this place. */
  predicate At<T(==)>(all: seq<T>, at: nat, some: seq<T>) {
    at + |some| <= |all| && all[at..at + |some|] == some
  }

  lemma {:induction false} FlatAt<T>(parts: seq<seq<T>>, i: nat)
    requires i < |parts|
    ensures At(Flat(parts), |Flat(parts[..i])|, parts[i])
  {
    var n := |parts| - 1;
    if i < n {
      FlatAt(parts[..n], i);
      assert parts[..n][..i] == parts[..i];
    }
  }

  lemma {:induction false} ArchiveIsFlat(found: seq<Enclosure>)
    ensures Archive(found) == Flat(Parts(found))
  {
    if found != [] {
      ArchiveIsFlat(found[..|found| - 1]);
      assert Parts(found)[..|found| - 1] == Parts(found[..|found| - 1]);
    }
  }

  lemma PartsBefore(found: seq<Enclosure>, i: nat)
    requires i <= |found|
    ensures Parts(found)[..i] == Parts(found[..i])
  {
  }

  /** The entries of an archive: each document's behind all those of the documents before it. */
  lemma ArchiveExactly(found: seq<Enclosure>, i: nat)
    requires i < |found|
    ensures At(Archive(found), |Archive(found[..i])|, Parts(found)[i])
  {
    ArchiveIsFlat(found);
    ArchiveIsFlat(found[..i]);
    PartsBefore(found, i);
    FlatAt(Parts(found), i);
  }

  /** One entry for each document and each extract, and no others. */
  lemma {:induction false} ArchiveLength(found: seq<Enclosure>)
    ensures |Archive(found)| == |found| + Extracts(found)
  {
    if found != [] { ArchiveLength(found[..|found| - 1]); }
  }
}
