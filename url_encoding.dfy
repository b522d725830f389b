/**
 * The two escapings the services put into URLs: `encodeURIComponent`
 * (section 19.2.6.5 of ECMA-262) for path segments and the `q` parameter, and
 * the application/x-www-form-urlencoded serializer of `URLSearchParams`
 * (section 5.2 of the WHATWG URL Standard) for the filter queries. Both work
 * on the UTF-8 bytes of a string (section 3 of RFC 3629) and write a byte as
 * `%` and two upper-case hex digits. Beside them, the matching parser of
 * section 5.1 of the URL Standard, which reads the escaped text back.
 */
module UrlEncoding {
  import opened Wrappers
  import Text
  import Base64

  type Byte = Base64.Byte

  // ---------------------------------------------------------------------
  // UTF-8
  // ---------------------------------------------------------------------

  /** The UTF-8 bytes of one character: one byte below U+0080, else a lead byte and continuation bytes. */
  function Utf8Char(c: char): (b: seq<Byte>)
    ensures 1 <= |b| <= 4
    ensures |b| == 1 <==> c as int < 0x80
    ensures |b| == 1 ==> b[0] == c as int
    ensures |b| > 1 ==> forall i :: 0 <= i < |b| ==> b[i] >= 0x80
  {
    var n := c as int;
    if n < 0x80 then [n]
    else if n < 0x800 then [0xC0 + n / 64, 0x80 + n % 64]
    else if n < 0x10000 then [0xE0 + n / 4096, 0x80 + n / 64 % 64, 0x80 + n % 64]
    else [0xF0 + n / 0x40000, 0x80 + n / 4096 % 64, 0x80 + n / 64 % 64, 0x80 + n % 64]
  }

  function Utf8Encode(s: string): seq<Byte>
  {
    if |s| == 0 then [] else Utf8Char(s[0]) + Utf8Encode(s[1..])
  }

  predicate IsContinuation(b: Byte) { 0x80 <= b < 0xC0 }

  /** A Unicode scalar value: a code point that is not a surrogate. */
  predicate IsScalar(n: int) { 0 <= n < 0xD800 || 0xE000 <= n < 0x110000 }

  /**
   * The character the bytes begin with and how many bytes it takes; None
   * when they do not begin the shortest encoding of a scalar value.
   */
  function Utf8First(b: seq<Byte>): (r: Option<(char, nat)>)
    requires |b| > 0
    ensures r.Some? ==> 1 <= r.value.1 <= |b|
  {
    var b0: int := b[0];
    if b0 < 0x80 then Some((b0 as char, 1))
    else if 0xC0 <= b0 < 0xE0 && |b| >= 2 && IsContinuation(b[1]) then
      var n := (b0 - 0xC0) * 64 + (b[1] as int - 0x80);
      if 0x80 <= n then Some((n as char, 2)) else None
    else if 0xE0 <= b0 < 0xF0 && |b| >= 3 && IsContinuation(b[1]) && IsContinuation(b[2]) then
      var n := (b0 - 0xE0) * 4096 + (b[1] as int - 0x80) * 64 + (b[2] as int - 0x80);
      if 0x800 <= n && IsScalar(n) then Some((n as char, 3)) else None
    else if 0xF0 <= b0 < 0xF8 && |b| >= 4 && IsContinuation(b[1]) && IsContinuation(b[2]) && IsContinuation(b[3]) then
      var n := (b0 - 0xF0) * 0x40000 + (b[1] as int - 0x80) * 4096 + (b[2] as int - 0x80) * 64 + (b[3] as int - 0x80);
      if 0x10000 <= n < 0x110000 then Some((n as char, 4)) else None
    else None
  }

  /** Strict UTF-8 decoding: None on the first ill-formed sequence. */
  function Utf8Decode(b: seq<Byte>): Option<string>
    decreases |b|
  {
    if |b| == 0 then Some("")
    else match Utf8First(b)
      case None => None
      case Some((c, k)) =>
        match Utf8Decode(b[k..])
        case None => None
        case Some(rest) => Some([c] + rest)
  }

  lemma {:induction false} Utf8FirstOfChar(c: char, rest: seq<Byte>)
    ensures Utf8First(Utf8Char(c) + rest) == Some((c, |Utf8Char(c)|))
  {
    var n := c as int;
    if n < 0x80 {
      assert (Utf8Char(c) + rest)[0] == n;
    } else if n < 0x800 {
      Utf8FirstOfTwo(c, rest);
    } else if n < 0x10000 {
      Utf8FirstOfThree(c, rest);
    } else {
      Utf8FirstOfFour(c, rest);
    }
  }

  lemma {:induction false} Utf8FirstOfTwo(c: char, rest: seq<Byte>)
    requires 0x80 <= c as int < 0x800
    ensures Utf8First(Utf8Char(c) + rest) == Some((c, 2))
  {
    var n := c as int;
    var x, y := n / 64, n % 64;
    assert n == x * 64 + y;
    var b := Utf8Char(c) + rest;
    assert b[0] == 0xC0 + x && b[1] == 0x80 + y;
  }

  lemma {:induction false} Utf8FirstOfThree(c: char, rest: seq<Byte>)
    requires 0x800 <= c as int < 0x10000
    ensures Utf8First(Utf8Char(c) + rest) == Some((c, 3))
  {
    var n := c as int;
    var x, y, z := n / 4096, n / 64 % 64, n % 64;
    assert n / 64 == x * 64 + y;
    assert n == x * 4096 + y * 64 + z;
    var b := Utf8Char(c) + rest;
    assert b[0] == 0xE0 + x && b[1] == 0x80 + y && b[2] == 0x80 + z;
  }

  lemma {:induction false} Utf8FirstOfFour(c: char, rest: seq<Byte>)
    requires 0x10000 <= c as int
    ensures Utf8First(Utf8Char(c) + rest) == Some((c, 4))
  {
    var n := c as int;
    var w, x, y, z := n / 0x40000, n / 4096 % 64, n / 64 % 64, n % 64;
    assert n / 4096 == w * 64 + x;
    assert n / 64 == (n / 4096) * 64 + y;
    assert n == w * 0x40000 + x * 4096 + y * 64 + z;
    var b := Utf8Char(c) + rest;
    assert b[0] == 0xF0 + w && b[1] == 0x80 + x && b[2] == 0x80 + y && b[3] == 0x80 + z;
  }

  /** Decoding the UTF-8 of a string gives the string back. */
  lemma {:induction false} Utf8RoundTrip(s: string)
    ensures Utf8Decode(Utf8Encode(s)) == Some(s)
  {
    if |s| > 0 {
      var b := Utf8Encode(s);
      Utf8FirstOfChar(s[0], Utf8Encode(s[1..]));
      assert b[|Utf8Char(s[0])|..] == Utf8Encode(s[1..]);
      Utf8RoundTrip(s[1..]);
      assert [s[0]] + s[1..] == s;
    }
  }

  // ---------------------------------------------------------------------
  // Percent-encoding of bytes
  // ---------------------------------------------------------------------

  predicate IsAlphanumeric(c: char)
  {
    'A' <= c <= 'Z' || 'a' <= c <= 'z' || '0' <= c <= '9'
  }

  /** The upper-case hex digit of a value below 16, which `HexValue` reads back. */
  function HexDigit(d: int): (c: char)
    requires 0 <= d < 16
    ensures IsAlphanumeric(c)
    ensures HexValue(c) == Some(d)
  {
    if d < 10 then ('0' as int + d) as char else ('A' as int + (d - 10)) as char
  }

  /** The value of a hex digit of either case. */
  function HexValue(c: char): (r: Option<int>)
    ensures r.Some? ==> 0 <= r.value < 16
  {
    if '0' <= c <= '9' then Some(c as int - '0' as int)
    else if 'A' <= c <= 'F' then Some(c as int - 'A' as int + 10)
    else if 'a' <= c <= 'f' then Some(c as int - 'a' as int + 10)
    else None
  }

  function PercentByte(b: Byte): string
  {
    ['%', HexDigit(b / 16), HexDigit(b % 16)]
  }

  function PercentBytes(bs: seq<Byte>): (s: string)
    ensures |s| == 3 * |bs|
    ensures forall i :: 0 <= i < |s| ==> s[i] == '%' || IsAlphanumeric(s[i])
  {
    if |bs| == 0 then "" else PercentByte(bs[0]) + PercentBytes(bs[1..])
  }

  // ---------------------------------------------------------------------
  // The two escapings
  // ---------------------------------------------------------------------

  datatype Escaping = UriComponent | FormUrlencoded

  /**
   * The characters left as they are: for `encodeURIComponent` the letters,
   * digits and `- _ . ! ~ * ' ( )`; for the form serializer the letters,
   * digits and `* - . _`.
   */
  predicate Keeps(e: Escaping, c: char)
  {
    match e
    case UriComponent => IsAlphanumeric(c) || c in "-_.!~*'()"
    case FormUrlencoded => IsAlphanumeric(c) || c in "*-._"
  }

  /** One character escaped: the form serializer writes a space as `+`; every other character not kept becomes the percent-encoding of its UTF-8 bytes. */
  function EscapeChar(e: Escaping, c: char): (r: string)
    ensures forall i :: 0 <= i < |r| ==> Keeps(e, r[i]) || r[i] == '%' || (e == FormUrlencoded && r[i] == '+')
  {
    if e == FormUrlencoded && c == ' ' then "+"
    else if Keeps(e, c) then [c]
    else PercentBytes(Utf8Char(c))
  }

  function Escape(e: Escaping, s: string): (r: string)
    ensures forall i :: 0 <= i < |r| ==> Keeps(e, r[i]) || r[i] == '%' || (e == FormUrlencoded && r[i] == '+')
  {
    if |s| == 0 then "" else EscapeChar(e, s[0]) + Escape(e, s[1..])
  }

  /** `encodeURIComponent(s)`. */
  function EncodeUriComponent(s: string): string
  {
    Escape(UriComponent, s)
  }

  /**
   * An escaped string holds none of the characters that end a path segment,
   * a query, a parameter or a name; `encodeURIComponent` writes no `+`
   * either, so a form parser cannot read one of its characters as a space.
   */
  lemma EscapedHasNoDelimiters(e: Escaping, s: string)
    ensures var r := Escape(e, s);
      '/' !in r && '?' !in r && '#' !in r && '&' !in r && '=' !in r && ' ' !in r
    ensures e == UriComponent ==> '+' !in Escape(e, s)
  {
    var r := Escape(e, s);
    forall i | 0 <= i < |r|
      ensures r[i] != '/' && r[i] != '?' && r[i] != '#' && r[i] != '&' && r[i] != '=' && r[i] != ' '
      ensures e == UriComponent ==> r[i] != '+'
    {
      assert Keeps(e, r[i]) || r[i] == '%' || (e == FormUrlencoded && r[i] == '+');
    }
  }

  // ---------------------------------------------------------------------
  // Reading escaped text back
  // ---------------------------------------------------------------------

  /**
   * The bytes of escaped text: `%` and two hex digits is one byte, `+` is a
   * space when `plusAsSpace`, any other character its UTF-8 bytes (a `%`
   * without two hex digits after it included). Walking characters rather
   * than the bytes of the text gives the same bytes, since no byte of a
   * character above U+007F is `%`, `+` or a hex digit.
   */
  function UnescapeBytes(t: string, plusAsSpace: bool): seq<Byte>
    decreases |t|
  {
    if |t| == 0 then []
    else if t[0] == '%' && |t| >= 3 && HexValue(t[1]).Some? && HexValue(t[2]).Some? then
      [HexValue(t[1]).value * 16 + HexValue(t[2]).value] + UnescapeBytes(t[3..], plusAsSpace)
    else if plusAsSpace && t[0] == '+' then [0x20] + UnescapeBytes(t[1..], plusAsSpace)
    else Utf8Char(t[0]) + UnescapeBytes(t[1..], plusAsSpace)
  }

  /** A name or value as the form parser reads it: `+` as a space, percent-decoding, then UTF-8 decoding. */
  function FormDecode(t: string): Option<string>
  {
    Utf8Decode(UnescapeBytes(t, true))
  }

  lemma {:induction false} UnescapePercentBytes(bs: seq<Byte>, rest: string, plusAsSpace: bool)
    ensures UnescapeBytes(PercentBytes(bs) + rest, plusAsSpace) == bs + UnescapeBytes(rest, plusAsSpace)
  {
    if |bs| > 0 {
      var tail := PercentBytes(bs[1..]) + rest;
      assert PercentBytes(bs) + rest == PercentByte(bs[0]) + tail;
      var u := UnescapeBytes(rest, plusAsSpace);
      UnescapePercentByte(bs[0], tail, plusAsSpace);
      UnescapePercentBytes(bs[1..], rest, plusAsSpace);
      assert UnescapeBytes(PercentBytes(bs) + rest, plusAsSpace) == [bs[0]] + (bs[1..] + u);
      assert [bs[0]] + (bs[1..] + u) == ([bs[0]] + bs[1..]) + u;
      assert [bs[0]] + bs[1..] == bs;
    } else {
      assert PercentBytes(bs) + rest == rest;
    }
  }

  /** `%HH` reads back as the byte it escapes. */
  lemma {:induction false} UnescapePercentByte(b: Byte, tail: string, plusAsSpace: bool)
    ensures UnescapeBytes(PercentByte(b) + tail, plusAsSpace) == [b] + UnescapeBytes(tail, plusAsSpace)
  {
    var t := PercentByte(b) + tail;
    assert t[0] == '%' && t[1] == HexDigit(b / 16) && t[2] == HexDigit(b % 16) && t[3..] == tail;
    assert b / 16 * 16 + b % 16 == b;
  }

  lemma {:induction false} UnescapeEscapeChar(e: Escaping, c: char, rest: string)
    ensures UnescapeBytes(EscapeChar(e, c) + rest, true) == Utf8Char(c) + UnescapeBytes(rest, true)
  {
    if e == FormUrlencoded && c == ' ' {
      assert (EscapeChar(e, c) + rest)[1..] == rest;
    } else if Keeps(e, c) {
      assert (EscapeChar(e, c) + rest)[1..] == rest;
    } else {
      UnescapePercentBytes(Utf8Char(c), rest, true);
    }
  }

  lemma {:induction false} UnescapeEscape(e: Escaping, s: string)
    ensures UnescapeBytes(Escape(e, s), true) == Utf8Encode(s)
  {
    if |s| > 0 {
      UnescapeEscapeChar(e, s[0], Escape(e, s[1..]));
      UnescapeEscape(e, s[1..]);
    }
  }

  /**
   * The form parser reads back exactly what either escaping wrote: a
   * parameter value written by `encodeURIComponent` or by `URLSearchParams`
   * reaches the server unchanged.
   */
  lemma {:induction false} EscapeRoundTrip(e: Escaping, s: string)
    ensures FormDecode(Escape(e, s)) == Some(s)
  {
    UnescapeEscape(e, s);
    Utf8RoundTrip(s);
  }

  /**
   * `decodeURIComponent(t)` on the text the encoder writes: `%HH` is a byte
   * and `+` stays a `+`. The built-in throws on a malformed escape, which
   * encoded text never holds; here such a `%` is read as itself.
   */
  function DecodeUriComponent(t: string): Option<string>
  {
    Utf8Decode(UnescapeBytes(t, false))
  }

  /** Without a `+` in the text it does not matter whether `+` means a space. */
  lemma {:induction false} UnescapeWithoutPlus(t: string)
    requires '+' !in t
    ensures UnescapeBytes(t, false) == UnescapeBytes(t, true)
    decreases |t|
  {
    if |t| > 0 {
      if t[0] == '%' && |t| >= 3 && HexValue(t[1]).Some? && HexValue(t[2]).Some? {
        assert '+' !in t[3..] by { assert forall i :: 0 <= i < |t[3..]| ==> t[3..][i] == t[i + 3]; }
        UnescapeWithoutPlus(t[3..]);
      } else {
        assert '+' !in t[1..] by { assert forall i :: 0 <= i < |t[1..]| ==> t[1..][i] == t[i + 1]; }
        UnescapeWithoutPlus(t[1..]);
      }
    }
  }

  /** `decodeURIComponent(encodeURIComponent(s)) === s`. */
  lemma {:induction false} UriComponentRoundTrip(s: string)
    ensures DecodeUriComponent(EncodeUriComponent(s)) == Some(s)
  {
    EscapedHasNoDelimiters(UriComponent, s);
    UnescapeWithoutPlus(Escape(UriComponent, s));
    EscapeRoundTrip(UriComponent, s);
  }

  // ---------------------------------------------------------------------
  // Query strings
  // ---------------------------------------------------------------------

  type Params = seq<(string, string)>

  function EncodePair(p: (string, string)): string
  {
    Escape(FormUrlencoded, p.0) + "=" + Escape(FormUrlencoded, p.1)
  }

  function Pieces(list: Params): (r: seq<string>)
    ensures |r| == |list| && forall i :: 0 <= i < |list| ==> r[i] == EncodePair(list[i])
  {
    if |list| == 0 then [] else [EncodePair(list[0])] + Pieces(list[1..])
  }

  /** `URLSearchParams.prototype.toString()` of a list of name-value pairs. */
  function Serialize(list: Params): string
  {
    Text.Join(Pieces(list), "&")
  }

  /** One `name=value` piece, split at its first `=`; a piece without `=` is a name with an empty value. */
  function ParsePair(piece: string): Option<(string, string)>
  {
    var (name, value) := if '=' in piece then
        var k := Text.IndexOf(piece, '=');
        (piece[..k], piece[k + 1..])
      else (piece, "");
    match (FormDecode(name), FormDecode(value))
    case (Some(n), Some(v)) => Some((n, v))
    case _ => None
  }

  function ParsePieces(pieces: seq<string>): Option<Params>
  {
    if |pieces| == 0 then Some([])
    else if pieces[0] == "" then ParsePieces(pieces[1..])
    else match (ParsePair(pieces[0]), ParsePieces(pieces[1..]))
      case (Some(p), Some(rest)) => Some([p] + rest)
      case _ => None
  }

  /** `new URLSearchParams(query)`: the non-empty pieces between `&`, in order. */
  function ParseQuery(query: string): Option<Params>
  {
    ParsePieces(Text.Split(query, '&'))
  }

  lemma {:induction false} ParseEncodedPair(p: (string, string))
    ensures ParsePair(EncodePair(p)) == Some(p)
  {
    var name := Escape(FormUrlencoded, p.0);
    var piece := EncodePair(p);
    var k := |name|;
    assert piece[k] == '=';
    assert piece[..k] == name;
    assert piece[k + 1..] == Escape(FormUrlencoded, p.1);
    var j := Text.IndexOf(piece, '=');
    assert forall i :: 0 <= i < k ==> piece[i] == name[i];
    assert forall i :: 0 <= i < j ==> piece[i] == piece[..j][i];
    assert j == k;
    EscapeRoundTrip(FormUrlencoded, p.0);
    EscapeRoundTrip(FormUrlencoded, p.1);
  }

  lemma {:induction false} ParseEncodedPieces(list: Params)
    ensures ParsePieces(Pieces(list)) == Some(list)
  {
    if |list| > 0 {
      var pieces := Pieces(list);
      assert pieces[0] == EncodePair(list[0]) && pieces[0] != "";
      assert pieces[1..] == Pieces(list[1..]);
      ParseEncodedPair(list[0]);
      ParseEncodedPieces(list[1..]);
      assert [list[0]] + list[1..] == list;
    }
  }

  /** What `URLSearchParams` writes, it reads back: the pairs, in their order, with repeats. */
  lemma {:induction false} SerializeRoundTrip(list: Params)
    ensures ParseQuery(Serialize(list)) == Some(list)
  {
    if |list| == 0 {
      assert Text.Split("", '&') == [""];
    } else {
      var pieces := Pieces(list);
      forall i | 0 <= i < |pieces|
        ensures '&' !in pieces[i]
      {
        EscapedHasNoDelimiters(FormUrlencoded, list[i].0);
        EscapedHasNoDelimiters(FormUrlencoded, list[i].1);
      }
      Text.SplitJoin(pieces, '&');
      ParseEncodedPieces(list);
    }
  }

  /** Different lists of pairs give different query strings. */
  lemma {:induction false} SerializeInjective(a: Params, b: Params)
    ensures Serialize(a) == Serialize(b) <==> a == b
  {
    SerializeRoundTrip(a);
    SerializeRoundTrip(b);
  }

  /** A `URLSearchParams` built by successive `append` calls. */
  class SearchParams {
    var list: Params

    constructor()
      ensures list == []
    {
      list := [];
    }

    method Append(name: string, value: string)
      modifies this
      ensures list == old(list) + [(name, value)]
    {
      list := list + [(name, value)];
    }

    /** `toString()`: text that parses back to the pairs appended so far. */
    function ToString(): (s: string)
      reads this
      ensures ParseQuery(s) == Some(list)
    {
      SerializeRoundTrip(list);
      Serialize(list)
    }
  }
}
