/**
 * Query strings as the browser builds and reads them: `encodeURIComponent`
 * on the writing side, and `URLSearchParams` (form decoding, first match
 * wins) on the reading side. The catalogue hands its filter choices to the
 * contact page through such a query.
 */
module Query {
  import opened Wrappers
  import opened Strings

  // ---------------------------------------------------------------------------
  // encodeURIComponent
  // ---------------------------------------------------------------------------

  predicate IsAsciiLetterOrDigit(c: char) {
    ('a' <= c <= 'z') || ('A' <= c <= 'Z') || IsDigit(c)
  }

  /** The characters `encodeURIComponent` leaves alone. */
  predicate IsUnreserved(c: char) {
    IsAsciiLetterOrDigit(c) || c == '-' || c == '_' || c == '.' || c == '!' || c == '~'
    || c == '*' || c == '\'' || c == '(' || c == ')'
  }

  predicate IsAscii(s: string) {
    forall k :: 0 <= k < |s| ==> (s[k] as int) < 0x80
  }

  const HexDigits := "0123456789ABCDEF"

  /** `%XY` with upper-case hexadecimal digits. */
  function PercentByte(b: nat): (r: string)
    requires b < 256
    ensures |r| == 3 && r[0] == '%'
    ensures IsAsciiLetterOrDigit(r[1]) && IsAsciiLetterOrDigit(r[2])
  {
    ['%', HexDigits[b / 16], HexDigits[b % 16]]
  }

  /** The UTF-8 bytes of a Unicode scalar value. */
  function Utf8(c: char): (r: seq<nat>)
    ensures 1 <= |r| <= 4
    ensures forall k :: 0 <= k < |r| ==> r[k] < 256
    ensures |r| == 1 <==> (c as int) < 0x80
    ensures (c as int) < 0x80 ==> r == [c as int]
  {
    var cp := c as int;
    if cp < 0x80 then [cp]
    else if cp < 0x800 then [0xC0 + cp / 64, 0x80 + cp % 64]
    else if cp < 0x10000 then [0xE0 + cp / 4096, 0x80 + (cp / 64) % 64, 0x80 + cp % 64]
    else [0xF0 + cp / 262144, 0x80 + (cp / 4096) % 64, 0x80 + (cp / 64) % 64, 0x80 + cp % 64]
  }

  /** Every byte percent-encoded. */
  function PercentBytes(bytes: seq<nat>): (r: string)
    requires forall k :: 0 <= k < |bytes| ==> bytes[k] < 256
    ensures |r| == 3 * |bytes|
    ensures forall k :: 0 <= k < |r| ==> r[k] == '%' || IsAsciiLetterOrDigit(r[k])
    decreases |bytes|
  {
    if |bytes| == 0 then ""
    else
      var h := PercentByte(bytes[0]);
      var t := PercentBytes(bytes[1..]);
      assert forall k :: 3 <= k < |h + t| ==> (h + t)[k] == t[k - 3];
      h + t
  }

  function EncodeChar(c: char): (r: string)
    ensures |r| >= 1
    ensures forall k :: 0 <= k < |r| ==> r[k] == '%' || IsUnreserved(r[k])
    ensures r == [c] <==> IsUnreserved(c)
  {
    if IsUnreserved(c) then [c] else PercentBytes(Utf8(c))
  }

  /** Text made only of `%` and unreserved characters, as encoding leaves it. */
  predicate EncodedChars(r: string) {
    forall k :: 0 <= k < |r| ==> r[k] == '%' || IsUnreserved(r[k])
  }

  lemma EncodedConcat(a: string, b: string)
    requires EncodedChars(a) && EncodedChars(b)
    ensures EncodedChars(a + b)
  {
    assert forall k :: |a| <= k < |a + b| ==> (a + b)[k] == b[k - |a|];
  }

  /** `encodeURIComponent(s)`. */
  function EncodeUriComponent(s: string): (r: string)
    ensures |r| >= |s|
    ensures EncodedChars(r)
    decreases |s|
  {
    if |s| == 0 then ""
    else
      var h := EncodeChar(s[0]);
      var t := EncodeUriComponent(s[1..]);
      EncodedConcat(h, t);
      h + t
  }

  /** A string is its own encoding exactly when every character is unreserved. */
  lemma {:induction false} EncodeFixesUnreserved(s: string)
    ensures EncodeUriComponent(s) == s <==> forall k :: 0 <= k < |s| ==> IsUnreserved(s[k])
    decreases |s|
  {
    if |s| > 0 {
      EncodeFixesUnreserved(s[1..]);
      var h := EncodeChar(s[0]);
      var t := EncodeUriComponent(s[1..]);
      assert s == [s[0]] + s[1..];
      if EncodeUriComponent(s) == s {
        assert h == [s[0]];
        assert t == s[1..];
      }
      if forall k :: 0 <= k < |s| ==> IsUnreserved(s[k]) {
        assert forall k :: 0 <= k < |s[1..]| ==> s[1..][k] == s[k + 1];
      }
    }
  }

  // ---------------------------------------------------------------------------
  // Form decoding
  // ---------------------------------------------------------------------------

  predicate IsHexDigit(c: char) {
    IsDigit(c) || ('A' <= c <= 'F') || ('a' <= c <= 'f')
  }

  function HexValue(c: char): (v: nat)
    requires IsHexDigit(c)
    ensures v < 16
  {
    if IsDigit(c) then c as int - '0' as int
    else if 'A' <= c <= 'F' then c as int - 'A' as int + 10
    else c as int - 'a' as int + 10
  }

  lemma HexValueOfHexDigits(v: nat)
    requires v < 16
    ensures IsHexDigit(HexDigits[v]) && HexValue(HexDigits[v]) == v
  {
  }

  /** Form decoding of one name or value: `+` is a space and `%XY` the
      character with that code; anything else stands for itself. */
  function FormDecode(s: string): (r: string)
    ensures |r| <= |s|
    decreases |s|
  {
    if |s| == 0 then ""
    else if |s| >= 3 && s[0] == '%' && IsHexDigit(s[1]) && IsHexDigit(s[2]) then
      [(HexValue(s[1]) * 16 + HexValue(s[2])) as char] + FormDecode(s[3..])
    else if s[0] == '+' then " " + FormDecode(s[1..])
    else [s[0]] + FormDecode(s[1..])
  }

  lemma DecodeEncodedChar(c: char, t: string)
    requires (c as int) < 0x80
    ensures FormDecode(EncodeChar(c) + t) == [c] + FormDecode(t)
  {
    if IsUnreserved(c) {
      assert ([c] + t)[1..] == t;
    } else {
      var b := c as int;
      var h := PercentByte(b);
      assert EncodeChar(c) == h;
      HexValueOfHexDigits(b / 16);
      HexValueOfHexDigits(b % 16);
      assert (h + t)[3..] == t;
      assert (h + t)[..3] == h;
    }
  }

  /** Decoding undoes `encodeURIComponent` on ASCII text. */
  lemma {:induction false} DecodeEncode(s: string)
    requires IsAscii(s)
    ensures FormDecode(EncodeUriComponent(s)) == s
    decreases |s|
  {
    if |s| > 0 {
      assert IsAscii(s[1..]) by {
        assert forall k :: 0 <= k < |s[1..]| ==> s[1..][k] == s[k + 1];
      }
      DecodeEncode(s[1..]);
      DecodeEncodedChar(s[0], EncodeUriComponent(s[1..]));
      assert s == [s[0]] + s[1..];
    }
  }

  /** A string without `%` or `+` decodes to itself. */
  lemma {:induction false} DecodePlain(s: string)
    requires '%' !in s && '+' !in s
    ensures FormDecode(s) == s
    decreases |s|
  {
    if |s| > 0 {
      assert s[0] in s;
      assert forall c :: c in s[1..] ==> c in s;
      DecodePlain(s[1..]);
      assert s == [s[0]] + s[1..];
    }
  }

  // ---------------------------------------------------------------------------
  // URLSearchParams
  // ---------------------------------------------------------------------------

  /** One `name=value` piece: split at the first `=`, a piece without `=` has
      an empty value. */
  function ParsePair(piece: string): (r: (string, string))
  {
    match IndexOf(piece, '=')
    case None => (FormDecode(piece), "")
    case Some(i) => (FormDecode(piece[..i]), FormDecode(piece[i + 1..]))
  }

  function ParsePairs(pieces: seq<string>): (r: seq<(string, string)>)
    ensures |r| <= |pieces|
    decreases |pieces|
  {
    if |pieces| == 0 then []
    else if pieces[0] == "" then ParsePairs(pieces[1..])
    else [ParsePair(pieces[0])] + ParsePairs(pieces[1..])
  }

  /** `new URLSearchParams(search)`: a leading `?` is dropped, the rest is cut
      at every `&`, and empty pieces are skipped. */
  function ParseSearch(search: string): seq<(string, string)> {
    var body := if |search| > 0 && search[0] == '?' then search[1..] else search;
    ParsePairs(Split(body, '&'))
  }

  /** A query of non-empty pieces gives one pair per piece. */
  lemma {:induction false} ParsePairsOfPieces(pieces: seq<string>)
    requires forall k :: 0 <= k < |pieces| ==> pieces[k] != ""
    ensures |ParsePairs(pieces)| == |pieces|
    ensures forall k :: 0 <= k < |pieces| ==> ParsePairs(pieces)[k] == ParsePair(pieces[k])
    decreases |pieces|
  {
    if |pieces| > 0 {
      ParsePairsOfPieces(pieces[1..]);
    }
  }

  /** A `?`-led query whose `&`-separated pieces are all non-empty gives one
      pair per piece. */
  lemma ParseSearchPieces(search: string, pieces: seq<string>)
    requires |search| > 0 && search[0] == '?'
    requires Split(search[1..], '&') == pieces
    requires forall k :: 0 <= k < |pieces| ==> pieces[k] != ""
    ensures |ParseSearch(search)| == |pieces|
    ensures forall k :: 0 <= k < |pieces| ==> ParseSearch(search)[k] == ParsePair(pieces[k])
  {
    ParsePairsOfPieces(pieces);
  }

  /** `name=` followed by the URI-encoded value. */
  function Param(name: string, value: string): string {
    name + "=" + EncodeUriComponent(value)
  }

  /** An encoded parameter reads back as its name and value. */
  lemma ParseEncodedPair(name: string, value: string)
    requires '=' !in name && '%' !in name && '+' !in name
    requires IsAscii(value)
    ensures ParsePair(Param(name, value)) == (name, value)
  {
    var piece := Param(name, value);
    assert piece[|name|] == '=';
    assert piece[..|name|] == name;
    assert forall k :: 0 <= k < |name| ==> piece[k] == name[k];
    assert IndexOf(piece, '=') == Some(|name|);
    assert piece[|name| + 1..] == EncodeUriComponent(value);
    DecodePlain(name);
    DecodeEncode(value);
  }

  /** An encoded parameter contains no `&`, since encoding leaves only
      unreserved characters and `%`. */
  lemma ParamHasNoAmpersand(name: string, value: string)
    requires '&' !in name
    ensures '&' !in Param(name, value)
  {
    var e := EncodeUriComponent(value);
    assert forall c :: c in name + "=" + e ==> c in name || c == '=' || c in e;
  }
}
