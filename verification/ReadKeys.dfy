/**
 The key of an upload that attaches a document to a case (`attachReadKey`): the first sixteen bytes
 of a digest, two of them rewritten in place into the version and variant of section 5.8 of RFC
 9562, printed as a UUID. The digest is any function from text to at least sixteen bytes.
 */
module ReadKeys {

  type Digest = string -> seq<bv8>

  // -------------------------------------------------------------------------
  // Ids
  // -------------------------------------------------------------------------

  predicate IsHex(c: char) {
    '0' <= c <= '9' || 'a' <= c <= 'f' || 'A' <= c <= 'F'
  }

  predicate DashPlace(k: int) {
    k == 8 || k == 13 || k == 18 || k == 23
  }

  /** `isUuid`: eight, four, four, four and twelve hex digits in either case, a dash between. */
  predicate IsUuid(s: string) {
    |s| == 36 && forall k :: 0 <= k < 36 ==> if DashPlace(k) then s[k] == '-' else IsHex(s[k])
  }

  predicate AllHex(s: string) {
    forall k :: 0 <= k < |s| ==> '0' <= s[k] <= '9' || 'a' <= s[k] <= 'f' || 'A' <= s[k] <= 'F'
  }

  /** A UUID is its five groups of hex digits joined by dashes, and nothing else is. */
  lemma UuidIsFiveGroups(s: string)
    ensures IsUuid(s) <==>
            |s| == 36 && AllHex(s[..8]) && AllHex(s[9..13]) && AllHex(s[14..18]) && AllHex(s[19..23]) && AllHex(s[24..]) &&
            s == s[..8] + "-" + s[9..13] + "-" + s[14..18] + "-" + s[19..23] + "-" + s[24..]
  {
    if |s| == 36 {
      var joined := s[..8] + "-" + s[9..13] + "-" + s[14..18] + "-" + s[19..23] + "-" + s[24..];
      assert joined[8] == '-' && joined[13] == '-' && joined[18] == '-' && joined[23] == '-';
      forall k | 0 <= k < 36 && IsUuid(s) ensures s[k] == joined[k] {}
      if s == joined {
        forall k | 0 <= k < 36 ensures DashPlace(k) ==> s[k] == '-' {}
        if AllHex(s[..8]) && AllHex(s[9..13]) && AllHex(s[14..18]) && AllHex(s[19..23]) && AllHex(s[24..]) {
          forall k | 0 <= k < 36 && !DashPlace(k) ensures IsHex(s[k]) {
            if k < 8 { assert s[k] == s[..8][k]; }
            else if k < 13 { assert s[k] == s[9..13][k - 9]; }
            else if k < 18 { assert s[k] == s[14..18][k - 14]; }
            else if k < 23 { assert s[k] == s[19..23][k - 19]; }
            else { assert s[k] == s[24..][k - 24]; }
          }
        }
      }
    }
  }

  function LowerChar(c: char): (l: char)
    ensures l == ':' <==> c == ':'
  {
    if 'A' <= c <= 'Z' then c - 'A' + 'a' else c
  }

  /** `toLowerCase` of an id, whose letters are ASCII. */
  function Lower(s: string): (l: string)
    ensures |l| == |s| && forall k :: 0 <= k < |s| ==> l[k] == LowerChar(s[k])
  {
    seq(|s|, k requires 0 <= k < |s| => LowerChar(s[k]))
  }

  /** What is hashed for a pair of ids. */
  function PairText(documentId: string, caseId: string): string {
    "read:" + Lower(documentId) + ":" + Lower(caseId)
  }

  // -------------------------------------------------------------------------
  // Bytes and hex
  // -------------------------------------------------------------------------

  function NibbleChar(n: bv8): (c: char)
    requires n < 16
    ensures IsHex(c) && NibbleOf(c) == n
  {
    if n < 10 then '0' + (n as int) as char else 'a' + (n as int - 10) as char
  }

  function NibbleOf(c: char): bv8
    requires IsHex(c)
  {
    if '0' <= c <= '9' then ((c - '0') as int) as bv8
    else if 'a' <= c <= 'f' then ((c - 'a') as int + 10) as bv8
    else ((c - 'A') as int + 10) as bv8
  }

  /** Digits are printed in small letters. */
  lemma DigitsPrinted(n: bv8)
    requires n < 16
    ensures NibbleChar(n) == "0123456789abcdef"[n as int]
  {
  }

  /** The digit of a byte's upper or lower half. */
  function HalfChar(b: bv8, upper: bool): (c: char)
    ensures IsHex(c)
  {
    NibbleChar(if upper then b >> 4 else b & 0xf)
  }

  /** `bytes.toString('hex')`. */
  function Hex(bytes: seq<bv8>): (h: string)
    ensures |h| == 2 * |bytes|
    ensures forall k :: 0 <= k < |h| ==> h[k] == HalfChar(bytes[k / 2], k % 2 == 0)
  {
    seq(2 * |bytes|, k requires 0 <= k < 2 * |bytes| => HalfChar(bytes[k / 2], k % 2 == 0))
  }

  /** The five slices of the hex joined by dashes. */
  function Dashed(h: string): (s: string)
    requires |h| == 32
    ensures |s| == 36
    ensures forall k :: 0 <= k < 36 && DashPlace(k) ==> s[k] == '-'
    ensures forall k :: 0 <= k < 8 ==> s[k] == h[k]
    ensures forall k :: 9 <= k < 13 ==> s[k] == h[k - 1]
    ensures forall k :: 14 <= k < 18 ==> s[k] == h[k - 2]
    ensures forall k :: 19 <= k < 23 ==> s[k] == h[k - 3]
    ensures forall k :: 24 <= k < 36 ==> s[k] == h[k - 4]
  {
    h[..8] + "-" + h[8..12] + "-" + h[12..16] + "-" + h[16..20] + "-" + h[20..]
  }

  /** The bytes with version 8 and the RFC's variant written over theirs. */
  function Masked(bytes: seq<bv8>): (m: seq<bv8>)
    requires |bytes| == 16
    ensures |m| == 16
  {
    bytes[6 := (bytes[6] & 0x0f) | 0x80][8 := (bytes[8] & 0x3f) | 0x80]
  }

  function KeyOf(digest: Digest, documentId: string, caseId: string): string
    requires |digest(PairText(documentId, caseId))| >= 16
  {
    Dashed(Hex(Masked(digest(PairText(documentId, caseId))[..16])))
  }

  /** `attachReadKey`: the digest's first bytes, two written in place, printed. */
  method AttachReadKey(digest: Digest, documentId: string, caseId: string) returns (key: string)
    requires |digest(PairText(documentId, caseId))| >= 16
    ensures key == KeyOf(digest, documentId, caseId)
    ensures IsUuid(key) && key[14] == '8' && key[19] in "89ab"
  {
    var hashed := digest(PairText(documentId, caseId));
    var bytes := new bv8[16](k requires 0 <= k < 16 => hashed[k]);
    assert bytes[..] == hashed[..16];
    bytes[6] := (bytes[6] & 0x0f) | 0x80;
    bytes[8] := (bytes[8] & 0x3f) | 0x80;
    assert bytes[..] == Masked(hashed[..16]);
    key := Dashed(Hex(bytes[..]));
    KeyIsVersion8(hashed[..16]);
  }

  lemma VersionHalf(b: bv8)
    ensures HalfChar((b & 0x0f) | 0x80, true) == '8'
  {
    assert ((b & 0x0f) | 0x80) >> 4 == 8;
  }

  lemma VariantHalf(b: bv8)
    ensures HalfChar((b & 0x3f) | 0x80, true) in "89ab"
  {
    var n := ((b & 0x3f) | 0x80) >> 4;
    assert n == 8 || n == 9 || n == 10 || n == 11;
    assert NibbleChar(8) == '8' && NibbleChar(9) == '9' && NibbleChar(10) == 'a' && NibbleChar(11) == 'b';
  }

  /** Every key is a well-formed UUID of version 8. */
  lemma KeyIsVersion8(bytes: seq<bv8>)
    requires |bytes| == 16
    ensures var key := Dashed(Hex(Masked(bytes))); IsUuid(key) && key[14] == '8' && key[19] in "89ab"
  {
    var h := Hex(Masked(bytes));
    VersionHalf(bytes[6]);
    VariantHalf(bytes[8]);
    assert h[12] == HalfChar(Masked(bytes)[6], true);
    assert h[16] == HalfChar(Masked(bytes)[8], true);
  }

  /** A random UUID, as `randomUUID` makes it. */
  predicate IsVersion4(s: string) {
    IsUuid(s) && s[14] == '4'
  }

  /** So a re-drive's fresh key, or a document's own random id, is never an attachment's. */
  lemma NeverVersion4(digest: Digest, documentId: string, caseId: string, random: string)
    requires |digest(PairText(documentId, caseId))| >= 16 && IsVersion4(random)
    ensures KeyOf(digest, documentId, caseId) != random
  {
    KeyIsVersion8(digest(PairText(documentId, caseId))[..16]);
  }

  /** The six bits written over are the version's and the variant's; every other bit is the digest's. */
  lemma MaskedKeepsTheRest(bytes: seq<bv8>)
    requires |bytes| == 16
    ensures var m := Masked(bytes);
            (forall k :: 0 <= k < 16 && k != 6 && k != 8 ==> m[k] == bytes[k]) &&
            m[6] >> 4 == 8 && m[6] & 0x0f == bytes[6] & 0x0f && m[8] >> 6 == 2 && m[8] & 0x3f == bytes[8] & 0x3f
  {
    VersionBits(bytes[6]);
    VariantBits(bytes[8]);
  }

  lemma VersionBits(b: bv8)
    ensures var m := (b & 0x0f) | 0x80; m >> 4 == 8 && m & 0x0f == b & 0x0f
  {
  }

  lemma VariantBits(b: bv8)
    ensures var m := (b & 0x3f) | 0x80; m >> 6 == 2 && m & 0x3f == b & 0x3f
  {
  }

  lemma ByteFromBits(a: bv8, b: bv8)
    ensures a >> 4 == b >> 4 && a & 0x0f == b & 0x0f ==> a == b
    ensures a >> 6 == b >> 6 && a & 0x3f == b & 0x3f ==> a == b
  {
    assert a == ((a >> 4) << 4) | (a & 0x0f) && b == ((b >> 4) << 4) | (b & 0x0f);
    assert a == ((a >> 6) << 6) | (a & 0x3f) && b == ((b >> 6) << 6) | (b & 0x3f);
  }

  /** Two digests agree in the 122 bits that are kept. */
  predicate SameKept(a: seq<bv8>, b: seq<bv8>)
    requires |a| >= 16 && |b| >= 16
  {
    (forall k :: 0 <= k < 16 && k != 6 && k != 8 ==> a[k] == b[k]) && a[6] & 0x0f == b[6] & 0x0f && a[8] & 0x3f == b[8] & 0x3f
  }

  lemma MaskedAlike(a: seq<bv8>, b: seq<bv8>)
    requires |a| == 16 && |b| == 16
    ensures Masked(a) == Masked(b) <==> SameKept(a, b)
  {
    MaskedKeepsTheRest(a);
    MaskedKeepsTheRest(b);
    ByteFromBits(Masked(a)[6], Masked(b)[6]);
    ByteFromBits(Masked(a)[8], Masked(b)[8]);
  }

  // -------------------------------------------------------------------------
  // One key for one pair
  // -------------------------------------------------------------------------

  /** Two characters hash alike exactly when they are one, or a letter in both its cases. */
  lemma LettersAlike(a: char, b: char)
    ensures LowerChar(a) == LowerChar(b) <==>
            a == b || ('A' <= a <= 'Z' && b as int == a as int + 32) || ('A' <= b <= 'Z' && a as int == b as int + 32)
  {
  }

  /** What is hashed of a pair: a prefix, the document's id, a colon and the case's id. */
  lemma PairTextParts(documentId: string, caseId: string)
    ensures var (text, n) := (PairText(documentId, caseId), |documentId|);
            |text| == 6 + n + |caseId| && text[..5] == "read:" && text[5 + n] == ':' &&
            text[5..5 + n] == Lower(documentId) && text[6 + n..] == Lower(caseId)
  {
    Slices("read:", Lower(documentId), ":", Lower(caseId));
  }

  /** The same two ids in capitals, or in small letters, give the same key. */
  lemma CaseDoesNotMatter(digest: Digest, d: string, c: string, d': string, c': string)
    requires Lower(d) == Lower(d') && Lower(c) == Lower(c') && |digest(PairText(d, c))| >= 16
    ensures |digest(PairText(d', c'))| >= 16 && KeyOf(digest, d, c) == KeyOf(digest, d', c')
  {
    assert PairText(d, c) == PairText(d', c');
  }

  /** Two pairs of ids are hashed alike exactly when they are the same pair, letter case apart. */
  lemma PairTextIsInjective(d: string, c: string, d': string, c': string)
    requires IsUuid(d) && IsUuid(c) && IsUuid(d') && IsUuid(c')
    ensures PairText(d, c) == PairText(d', c') <==> Lower(d) == Lower(d') && Lower(c) == Lower(c')
  {
    Slices("read:", Lower(d), ":", Lower(c));
    Slices("read:", Lower(d'), ":", Lower(c'));
  }

  lemma Slices(p: string, a: string, q: string, b: string)
    ensures (p + a + q + b)[|p|..|p| + |a|] == a && (p + a + q + b)[|p| + |a| + |q|..] == b
  {
  }

  lemma ByteFromHalves(a: bv8, b: bv8)
    requires HalfChar(a, true) == HalfChar(b, true) && HalfChar(a, false) == HalfChar(b, false)
    ensures a == b
  {
    assert NibbleOf(HalfChar(a, true)) == a >> 4 && NibbleOf(HalfChar(a, false)) == a & 0xf;
    assert NibbleOf(HalfChar(b, true)) == b >> 4 && NibbleOf(HalfChar(b, false)) == b & 0xf;
    assert a == ((a >> 4) << 4) | (a & 0xf);
    assert b == ((b >> 4) << 4) | (b & 0xf);
  }

  /** The printed key gives back every masked byte. */
  lemma KeyGivesBytes(a: seq<bv8>, b: seq<bv8>)
    requires |a| == 16 && |b| == 16 && Dashed(Hex(a)) == Dashed(Hex(b))
    ensures a == b
  {
    var (h, g) := (Hex(a), Hex(b));
    DashedIsInjective(h, g);
    forall k | 0 <= k < 16 ensures a[k] == b[k] { HexGivesByte(a, b, k); }
  }

  lemma HexGivesByte(a: seq<bv8>, b: seq<bv8>, k: nat)
    requires k < |a| == |b| && Hex(a) == Hex(b)
    ensures a[k] == b[k]
  {
    assert Hex(a)[2 * k] == HalfChar(a[k], true) && Hex(a)[2 * k + 1] == HalfChar(a[k], false);
    assert Hex(b)[2 * k] == HalfChar(b[k], true) && Hex(b)[2 * k + 1] == HalfChar(b[k], false);
    ByteFromHalves(a[k], b[k]);
  }

  lemma DashedIsInjective(h: string, g: string)
    requires |h| == 32 && |g| == 32 && Dashed(h) == Dashed(g)
    ensures h == g
  {
    var (s, t) := (Dashed(h), Dashed(g));
    forall k | 0 <= k < 32 ensures h[k] == g[k] {
      var at := if k < 8 then k else if k < 12 then k + 1 else if k < 16 then k + 2 else if k < 20 then k + 3 else k + 4;
      assert s[at] == h[k] && t[at] == g[k];
    }
  }

  /** Two pairs share a key exactly when the digests of their texts agree in every bit of their first sixteen bytes but those six. */
  lemma KeysCollideExactly(digest: Digest, d: string, c: string, d': string, c': string)
    requires |digest(PairText(d, c))| >= 16 && |digest(PairText(d', c'))| >= 16
    ensures var (a, b) := (digest(PairText(d, c)), digest(PairText(d', c')));
            KeyOf(digest, d, c) == KeyOf(digest, d', c') <==>
            (forall k :: 0 <= k < 16 && k != 6 && k != 8 ==> a[k] == b[k]) &&
            a[6] & 0x0f == b[6] & 0x0f && a[8] & 0x3f == b[8] & 0x3f
  {
    MaskedAlike(digest(PairText(d, c))[..16], digest(PairText(d', c'))[..16]);
    if KeyOf(digest, d, c) == KeyOf(digest, d', c') {
      KeyGivesBytes(Masked(digest(PairText(d, c))[..16]), Masked(digest(PairText(d', c'))[..16]));
    }
  }
}
