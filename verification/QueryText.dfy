/**
 Text in a URL's query, as section 5 of the WHATWG URL Standard and `encodeURIComponent` have it: a
 text's UTF-8 bytes, percent-encoded, in pairs joined by `&` and `=`; and the parser that takes them
 apart. A `char` is a Unicode scalar value.
 */
module QueryText {

  type Byte = b: int | 0 <= b < 256

  datatype Option<+T> = None | Some(value: T)

  // -------------------------------------------------------------------------
  // UTF-8
  // -------------------------------------------------------------------------

  function Utf8Of(c: char): (bytes: seq<Byte>)
    ensures 1 <= |bytes| <= 4
  {
    var n := c as int;
    if n < 0x80 then [n]
    else if n < 0x800 then [0xC0 + n / 64, 0x80 + n % 64]
    else if n < 0x10000 then [0xE0 + n / 4096, 0x80 + n / 64 % 64, 0x80 + n % 64]
    else [0xF0 + n / 262144, 0x80 + n / 4096 % 64, 0x80 + n / 64 % 64, 0x80 + n % 64]
  }

  function Utf8(s: string): seq<Byte> {
    if s == "" then [] else Utf8Of(s[0]) + Utf8(s[1..])
  }

  predicate IsScalar(n: int) {
    0 <= n < 0xD800 || 0xE000 <= n < 0x110000
  }

  predicate Continues(b: Byte) {
    0x80 <= b < 0xC0
  }

  /** How many bytes a lead byte announces; a byte that leads nothing stands alone. */
  function Announced(b: Byte): (n: nat)
    ensures 1 <= n <= 4
  {
    if 0xC0 <= b < 0xE0 then 2 else if 0xE0 <= b < 0xF0 then 3 else if 0xF0 <= b < 0xF8 then 4 else 1
  }

  function LeadBits(b: Byte): int {
    if b < 0x80 then b else if b < 0xE0 then b - 0xC0 else if b < 0xF0 then b - 0xE0 else b - 0xF0
  }

  function Scalar(bytes: seq<Byte>): int
    requires bytes != []
  {
    if |bytes| == 1 then LeadBits(bytes[0])
    else Scalar(bytes[..|bytes| - 1]) * 64 + bytes[|bytes| - 1] - 0x80
  }

  /** The text of some bytes; a byte that begins no character becomes the replacement character. */
  function TextOf(bytes: seq<Byte>): string
    decreases |bytes|
  {
    if bytes == [] then ""
    else
      var n := Announced(bytes[0]);
      if n <= |bytes| && (n > 1 || bytes[0] < 0x80) && (forall k :: 1 <= k < n ==> Continues(bytes[k])) && IsScalar(Scalar(bytes[..n]))
      then [Scalar(bytes[..n]) as char] + TextOf(bytes[n..])
      else ['\U{FFFD}'] + TextOf(bytes[1..])
  }

  lemma OneChar(c: char)
    ensures var bytes := Utf8Of(c);
            Announced(bytes[0]) == |bytes| && (|bytes| > 1 || bytes[0] < 0x80) &&
            (forall k :: 1 <= k < |bytes| ==> Continues(bytes[k])) && Scalar(bytes) == c as int
  {
    var n := c as int;
    if 0x80 <= n < 0x800 {
      ScalarOfTwo(Utf8Of(c));
    } else if 0x800 <= n < 0x10000 {
      ScalarOfThree(Utf8Of(c));
      ThreeSixes(n);
    } else if 0x10000 <= n {
      ScalarOfFour(Utf8Of(c));
      FourSixes(n);
    }
  }

  lemma ThreeSixes(n: nat)
    ensures n == (n / 4096 * 64 + n / 64 % 64) * 64 + n % 64
  {
    var a := n / 64;
    assert n == a * 64 + n % 64;
    assert n / 4096 == a / 64;
    assert a == a / 64 * 64 + a % 64;
  }

  lemma FourSixes(n: nat)
    ensures n == ((n / 262144 * 64 + n / 4096 % 64) * 64 + n / 64 % 64) * 64 + n % 64
  {
    ThreeSixes(n);
    var b := n / 4096;
    assert n / 262144 == b / 64;
    assert b == b / 64 * 64 + b % 64;
  }

  lemma ScalarOfTwo(bytes: seq<Byte>)
    requires |bytes| == 2
    ensures Scalar(bytes) == LeadBits(bytes[0]) * 64 + bytes[1] - 0x80
  {
    assert bytes[..1] == [bytes[0]];
  }

  lemma ScalarOfThree(bytes: seq<Byte>)
    requires |bytes| == 3
    ensures Scalar(bytes) == (LeadBits(bytes[0]) * 64 + bytes[1] - 0x80) * 64 + bytes[2] - 0x80
  {
    ScalarOfTwo(bytes[..2]);
  }

  lemma ScalarOfFour(bytes: seq<Byte>)
    requires |bytes| == 4
    ensures Scalar(bytes) == ((LeadBits(bytes[0]) * 64 + bytes[1] - 0x80) * 64 + bytes[2] - 0x80) * 64 + bytes[3] - 0x80
  {
    ScalarOfThree(bytes[..3]);
  }

  /** Every text reads back from its UTF-8. */
  lemma {:induction false} Utf8ReadsBack(s: string)
    ensures TextOf(Utf8(s)) == s
  {
    if s != "" {
      Utf8ReadsBack(s[1..]);
      OneChar(s[0]);
      var (first, rest) := (Utf8Of(s[0]), Utf8(s[1..]));
      assert (first + rest)[..|first|] == first && (first + rest)[|first|..] == rest;
      assert s == [s[0]] + s[1..];
    }
  }

  // -------------------------------------------------------------------------
  // Percent-encoding
  // -------------------------------------------------------------------------

  /** `application/x-www-form-urlencoded`, or `encodeURIComponent`. */
  datatype Style = Form | Component

  predicate AlphaNumeric(b: Byte) {
    0x30 <= b < 0x3A || 0x41 <= b < 0x5B || 0x61 <= b < 0x7B
  }

  /** The bytes written as themselves: `*-._`, or `-_.!~*'()`. */
  predicate Kept(style: Style, b: Byte) {
    AlphaNumeric(b) || b == 0x2D || b == 0x2E || b == 0x5F || b == 0x2A ||
    (style.Component? && (b == 0x21 || b == 0x7E || b == 0x27 || b == 0x28 || b == 0x29))
  }

  function HexChar(n: nat): (c: char)
    requires n < 16
    ensures IsHexChar(c) && HexValue(c) == n
  {
    if n < 10 then '0' + n as char else 'A' + (n - 10) as char
  }

  predicate IsHexChar(c: char) {
    '0' <= c <= '9' || 'A' <= c <= 'F' || 'a' <= c <= 'f'
  }

  function HexValue(c: char): (n: nat)
    requires IsHexChar(c)
    ensures n < 16
  {
    if c <= '9' then (c - '0') as nat else if c <= 'F' then (c - 'A') as nat + 10 else (c - 'a') as nat + 10
  }

  function EncodeByte(style: Style, b: Byte): string {
    if Kept(style, b) then [b as char]
    else if style.Form? && b == 0x20 then "+"
    else ['%', HexChar(b / 16), HexChar(b % 16)]
  }

  function EncodeBytes(style: Style, bytes: seq<Byte>): string {
    if bytes == [] then "" else EncodeByte(style, bytes[0]) + EncodeBytes(style, bytes[1..])
  }

  function Encode(style: Style, s: string): string {
    EncodeBytes(style, Utf8(s))
  }

  /** The bytes of a written name or value: `+` is a space, `%` and two hex digits a byte. */
  function DecodeBytes(s: string): seq<Byte> {
    if s == "" then []
    else if s[0] == '%' && |s| > 2 && IsHexChar(s[1]) && IsHexChar(s[2]) then
      [HexValue(s[1]) * 16 + HexValue(s[2])] + DecodeBytes(s[3..])
    else (if s[0] == '+' then [0x20] else Utf8Of(s[0])) + DecodeBytes(s[1..])
  }

  function Decode(s: string): string {
    TextOf(DecodeBytes(s))
  }

  lemma OneByte(style: Style, b: Byte, rest: string)
    ensures DecodeBytes(EncodeByte(style, b) + rest) == [b] + DecodeBytes(rest)
  {
    var text := EncodeByte(style, b) + rest;
    if Kept(style, b) || (style.Form? && b == 0x20) {
      assert text[1..] == rest;
    } else {
      assert text[3..] == rest;
    }
  }

  lemma {:induction false} BytesReadBack(style: Style, bytes: seq<Byte>)
    ensures DecodeBytes(EncodeBytes(style, bytes)) == bytes
  {
    if bytes != [] {
      OneByte(style, bytes[0], EncodeBytes(style, bytes[1..]));
      BytesReadBack(style, bytes[1..]);
      assert bytes == [bytes[0]] + bytes[1..];
    }
  }

  /** Every text reads back from its encoding, in either style. */
  lemma EncodedReadsBack(style: Style, s: string)
    ensures Decode(Encode(style, s)) == s
  {
    BytesReadBack(style, Utf8(s));
    Utf8ReadsBack(s);
  }

  /** The characters that part a query or end it. */
  predicate Parts(c: char) {
    c == '&' || c == '=' || c == '#' || c == '?'
  }

  lemma {:induction false} EncodedPartsNothing(style: Style, bytes: seq<Byte>)
    ensures forall k :: 0 <= k < |EncodeBytes(style, bytes)| ==> !Parts(EncodeBytes(style, bytes)[k])
  {
    if bytes != [] {
      EncodedPartsNothing(style, bytes[1..]);
      EncodedByteParts(style, bytes[0]);
    }
  }

  lemma EncodedByteParts(style: Style, b: Byte)
    ensures forall k :: 0 <= k < |EncodeByte(style, b)| ==> !Parts(EncodeByte(style, b)[k])
  {
  }

  // -------------------------------------------------------------------------
  // A query of pairs
  // -------------------------------------------------------------------------

  datatype Pair = Pair(name: string, value: string)

  function Piece(p: Pair): string {
    Encode(Form, p.name) + "=" + Encode(Form, p.value)
  }

  /** The query `URLSearchParams` writes. */
  function Serialized(pairs: seq<Pair>): string {
    if pairs == [] then ""
    else if |pairs| == 1 then Piece(pairs[0])
    else Piece(pairs[0]) + "&" + Serialized(pairs[1..])
  }

  /** The place of the first such character, or the end. */
  function Cut(s: string, c: char): (k: nat)
    ensures k <= |s| && (k < |s| ==> s[k] == c) && forall j :: 0 <= j < k ==> s[j] != c
  {
    if s == "" || s[0] == c then 0 else 1 + Cut(s[1..], c)
  }

  function After(s: string, k: nat): string {
    if k < |s| then s[k + 1..] else ""
  }

  function PairOf(piece: string): Pair {
    var k := Cut(piece, '=');
    Pair(Decode(piece[..k]), Decode(After(piece, k)))
  }

  /** The parser: pieces between `&`, the empty ones skipped, each a name and a value about its first `=`. */
  function Parsed(query: string): seq<Pair>
    decreases |query|
  {
    if query == "" then []
    else
      var k := Cut(query, '&');
      (if k == 0 then [] else [PairOf(query[..k])]) + Parsed(After(query, k))
  }

  lemma CutIs(s: string, c: char, k: nat)
    requires k <= |s| && (k < |s| ==> s[k] == c) && forall j :: 0 <= j < k ==> s[j] != c
    ensures Cut(s, c) == k
  {
  }

  lemma PieceReadsBack(p: Pair)
    ensures PairOf(Piece(p)) == p && Piece(p) != "" && forall k :: 0 <= k < |Piece(p)| ==> Piece(p)[k] != '&' && Piece(p)[k] != '#'
  {
    var (name, value) := (Encode(Form, p.name), Encode(Form, p.value));
    EncodedPartsNothing(Form, Utf8(p.name));
    EncodedPartsNothing(Form, Utf8(p.value));
    var piece := Piece(p);
    assert piece[|name|] == '=' && piece[..|name|] == name && piece[|name| + 1..] == value;
    CutIs(piece, '=', |name|);
    EncodedReadsBack(Form, p.name);
    EncodedReadsBack(Form, p.value);
  }

  /** Every list of pairs reads back from its query. */
  lemma {:induction false} SerializedReadsBack(pairs: seq<Pair>)
    ensures Parsed(Serialized(pairs)) == pairs
  {
    if |pairs| == 1 {
      OneReadsBack(pairs[0]);
      assert pairs == [pairs[0]];
    } else if pairs != [] {
      SerializedReadsBack(pairs[1..]);
      MoreReadBack(pairs[0], pairs[1..]);
      assert pairs == [pairs[0]] + pairs[1..];
    }
  }

  lemma OneReadsBack(p: Pair)
    ensures Parsed(Serialized([p])) == [p]
  {
    PieceReadsBack(p);
    LastPiece(Piece(p));
  }

  lemma MoreReadBack(p: Pair, rest: seq<Pair>)
    requires rest != []
    ensures Parsed(Serialized([p] + rest)) == [p] + Parsed(Serialized(rest))
  {
    PieceReadsBack(p);
    OnePieceOff(Piece(p), Serialized(rest));
    assert ([p] + rest)[1..] == rest;
  }

  lemma LastPiece(piece: string)
    requires piece != "" && forall k :: 0 <= k < |piece| ==> piece[k] != '&'
    ensures Parsed(piece) == [PairOf(piece)]
  {
    CutIs(piece, '&', |piece|);
    assert piece[..|piece|] == piece;
  }

  lemma OnePieceOff(piece: string, rest: string)
    requires piece != "" && forall k :: 0 <= k < |piece| ==> piece[k] != '&'
    ensures Parsed(piece + "&" + rest) == [PairOf(piece)] + Parsed(rest)
  {
    var query := piece + "&" + rest;
    assert query[|piece|] == '&' && query[..|piece|] == piece && query[|piece| + 1..] == rest;
    CutIs(query, '&', |piece|);
  }

  /** What a page reads of one name: nothing, its value, or that it was sent more than once. */
  datatype Param = Absent | One(value: string) | Many

  function Lookup(pairs: seq<Pair>, name: string): Param {
    if pairs == [] then Absent
    else
      var rest := Lookup(pairs[1..], name);
      if pairs[0].name != name then rest else if rest.Absent? then One(pairs[0].value) else Many
  }

  /** The query of a path with a fragment. */
  function QueryOf(href: string): string {
    var from := After(href, Cut(href, '?'));
    from[..Cut(from, '#')]
  }
}
