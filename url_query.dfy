/**
  The query string `_buildUrl` appends to a request URL: `http_build_query`
  over an array of string values, with its default separator "&" and its
  default encoding (`urlencode`, RFC 1738 style: letters, digits and "-_."
  are kept, a space becomes "+", every other byte becomes "%XX" in upper-case
  hexadecimal). PHP strings are byte strings: a character here stands for
  one byte, and characters above U+00FF, which such strings never hold, are
  passed through unchanged.

  `ParseQuery` is not part of the client: it is the decoder against which
  the encoder is proved lossless.
 */
module UrlQuery {
  import opened Wrappers
  import opened Strings
  import opened PhpArrays

  predicate KeptAsIs(c: char) {
    'a' <= c <= 'z' || 'A' <= c <= 'Z' || '0' <= c <= '9' || c == '-' || c == '_' || c == '.'
  }

  predicate IsHex(c: char) {
    '0' <= c <= '9' || 'A' <= c <= 'F' || 'a' <= c <= 'f'
  }

  function HexDigit(d: nat): (c: char)
    requires d < 16
    ensures IsHex(c)
  {
    if d < 10 then (d + '0' as int) as char else (d - 10 + 'A' as int) as char
  }

  function HexValue(c: char): (d: nat)
    requires IsHex(c)
    ensures d < 16
  {
    if '0' <= c <= '9' then c as int - '0' as int
    else if 'A' <= c <= 'F' then c as int - 'A' as int + 10
    else c as int - 'a' as int + 10
  }

  /** `urlencode` of one character. */
  function EncodeChar(c: char): string {
    if KeptAsIs(c) then [c]
    else if c == ' ' then "+"
    else if c as int < 256 then ['%', HexDigit(c as int / 16), HexDigit(c as int % 16)]
    else [c]
  }

  /** `urlencode(s)`: the result never holds the separators "&" and "=". */
  function UrlEncode(s: string): (r: string)
    ensures '&' !in r && '=' !in r
    decreases |s|
  {
    if s == [] then [] else EncodeChar(s[0]) + UrlEncode(s[1..])
  }

  /** `urldecode(s)`. */
  function UrlDecode(s: string): string
    decreases |s|
  {
    if s == [] then []
    else if s[0] == '+' then " " + UrlDecode(s[1..])
    else if s[0] == '%' && |s| >= 3 && IsHex(s[1]) && IsHex(s[2]) then
      [(HexValue(s[1]) * 16 + HexValue(s[2])) as char] + UrlDecode(s[3..])
    else [s[0]] + UrlDecode(s[1..])
  }

  lemma DecodeEncodeChar(c: char, rest: string)
    ensures UrlDecode(EncodeChar(c) + rest) == [c] + UrlDecode(rest)
  {
    var s := EncodeChar(c) + rest;
    if KeptAsIs(c) || c as int >= 256 {
      assert s[1..] == rest;
    } else if c == ' ' {
      assert s[1..] == rest;
    } else {
      var n := c as int;
      assert HexValue(HexDigit(n / 16)) == n / 16;
      assert HexValue(HexDigit(n % 16)) == n % 16;
      assert s[3..] == rest;
    }
  }

  /** Decoding undoes encoding, for every string. */
  lemma {:induction false} DecodeEncode(s: string)
    ensures UrlDecode(UrlEncode(s)) == s
    decreases |s|
  {
    if s != [] {
      DecodeEncode(s[1..]);
      DecodeEncodeChar(s[0], UrlEncode(s[1..]));
      assert [s[0]] + s[1..] == s;
    }
  }

  /** One `key=value` segment of the query string. */
  function Segment(e: Entry): string {
    UrlEncode(KeyText(e.0)) + "=" + UrlEncode(e.1)
  }

  function Segments(q: seq<Entry>): (fs: seq<string>)
    ensures |fs| == |q|
    ensures forall i :: 0 <= i < |q| ==> fs[i] == Segment(q[i])
  {
    seq(|q|, i requires 0 <= i < |q| => Segment(q[i]))
  }

  /** `http_build_query($q)` for an array of strings. */
  function BuildQuery(q: PhpArray): string {
    if q == [] then "" else Join(Segments(q), '&')
  }

  // ----- the decoder -------------------------------------------------------

  function FirstIndex(s: string, c: char): (r: Option<nat>)
    ensures r.Some? ==> r.value < |s| && s[r.value] == c && c !in s[..r.value]
    ensures r.None? ==> c !in s
    decreases |s|
  {
    if s == [] then None
    else if s[0] == c then Some(0)
    else
      match FirstIndex(s[1..], c)
      case None => None
      case Some(i) =>
        assert s[..i + 1] == [s[0]] + s[1..][..i];
        Some(i + 1)
  }

  /** Reads one segment back: the name up to the first "=", the value after it. */
  function ParseSegment(f: string): Entry {
    match FirstIndex(f, '=')
    case None => (NormalizeKey(UrlDecode(f)), "")
    case Some(i) => (NormalizeKey(UrlDecode(f[..i])), UrlDecode(f[i + 1..]))
  }

  /** Reads a query string back into its segments, in order. */
  function ParseQuery(s: string): seq<Entry> {
    var segments := Split(s, '&');
    seq(|segments|, i requires 0 <= i < |segments| => ParseSegment(segments[i]))
  }

  lemma ParseSegmentOfSegment(e: Entry)
    ensures ParseSegment(Segment(e)) == e
  {
    var name := UrlEncode(KeyText(e.0));
    var f := Segment(e);
    assert f == name + ['='] + UrlEncode(e.1);
    var i := |name|;
    assert f[i] == '=';
    assert f[..i] == name;
    assert FirstIndex(f, '=') == Some(i);
    assert f[i + 1..] == UrlEncode(e.1);
    DecodeEncode(KeyText(e.0));
    DecodeEncode(e.1);
    NormalizeKeyText(e.0);
  }

  /** The query string of a non-empty array reads back as exactly that array. */
  lemma QueryRoundTrip(q: PhpArray)
    requires q != []
    ensures ParseQuery(BuildQuery(q)) == q
  {
    var fs := Segments(q);
    forall i | 0 <= i < |fs| ensures '&' !in fs[i] {
      assert fs[i] == UrlEncode(KeyText(q[i].0)) + "=" + UrlEncode(q[i].1);
    }
    SplitJoin(fs, '&');
    forall i | 0 <= i < |q| ensures ParseSegment(fs[i]) == q[i] {
      ParseSegmentOfSegment(q[i]);
    }
  }
}
