/**
 * `atob`, the browser's base64 decoder: the forgiving-base64 decode of the
 * WHATWG Infra standard over the alphabet of section 4 of RFC 4648, giving a
 * binary string (one character per byte). Beside it, the unpadded encoder
 * and the base64url alphabet of section 5 of RFC 4648, which is what the
 * segments of a JSON Web Token use (section 2 of RFC 7515).
 */
module Base64 {
  import opened Wrappers

  type Byte = b: int | 0 <= b < 256

  /** A 6-bit value, one character of the encoding. */
  type Sextet = v: int | 0 <= v < 64

  /** A string whose every character is a byte, as `atob` returns and `btoa` accepts. */
  predicate IsBinary(s: string)
  {
    forall i :: 0 <= i < |s| ==> s[i] as int < 256
  }

  /** The string with one character per byte. */
  function BinaryString(b: seq<Byte>): (s: string)
    ensures |s| == |b| && IsBinary(s)
    ensures forall i :: 0 <= i < |b| ==> s[i] as int == b[i]
  {
    if |b| == 0 then "" else [b[0] as char] + BinaryString(b[1..])
  }

  /** The bytes of a binary string. */
  function BytesOf(s: string): (b: seq<Byte>)
    requires IsBinary(s)
    ensures |b| == |s| && forall i :: 0 <= i < |s| ==> b[i] == s[i] as int
  {
    if |s| == 0 then [] else [s[0] as int as Byte] + BytesOf(s[1..])
  }

  lemma {:induction false} BinaryStringOfBytes(s: string)
    requires IsBinary(s)
    ensures BinaryString(BytesOf(s)) == s
  {
    var r := BinaryString(BytesOf(s));
    assert forall i :: 0 <= i < |s| ==> r[i] == s[i];
  }

  /** The character of a 6-bit value in the alphabet of section 4 of RFC 4648. */
  function SextetChar(v: Sextet): char
  {
    if v < 26 then ('A' as int + v) as char
    else if v < 52 then ('a' as int + (v - 26)) as char
    else if v < 62 then ('0' as int + (v - 52)) as char
    else if v == 62 then '+'
    else '/'
  }

  /** The 6-bit value of a character of that alphabet; None for every other character. */
  function SextetValue(c: char): (r: Option<Sextet>)
    ensures r.Some? ==> SextetChar(r.value) == c
  {
    if 'A' <= c <= 'Z' then Some(c as int - 'A' as int)
    else if 'a' <= c <= 'z' then Some(c as int - 'a' as int + 26)
    else if '0' <= c <= '9' then Some(c as int - '0' as int + 52)
    else if c == '+' then Some(62)
    else if c == '/' then Some(63)
    else None
  }

  lemma {:induction false} SextetRoundTrip(v: Sextet)
    ensures SextetValue(SextetChar(v)) == Some(v)
  {
  }

  predicate IsAsciiWhitespace(c: char)
  {
    c == '\t' || c == '\n' || c == '\U{000C}' || c == '\r' || c == ' '
  }

  function RemoveWhitespace(s: string): (t: string)
    ensures forall i :: 0 <= i < |t| ==> !IsAsciiWhitespace(t[i])
    ensures (forall i :: 0 <= i < |s| ==> !IsAsciiWhitespace(s[i])) ==> t == s
  {
    if |s| == 0 then ""
    else (if IsAsciiWhitespace(s[0]) then "" else [s[0]]) + RemoveWhitespace(s[1..])
  }

  /** The 6-bit values of a string, or None when a character is outside the alphabet. */
  function Sextets(s: string): (r: Option<seq<Sextet>>)
    ensures r.Some? <==> forall i :: 0 <= i < |s| ==> SextetValue(s[i]).Some?
    ensures r.Some? ==> |r.value| == |s| && forall i :: 0 <= i < |s| ==> SextetValue(s[i]) == Some(r.value[i])
  {
    if |s| == 0 then Some([])
    else
      match (SextetValue(s[0]), Sextets(s[1..]))
      case (Some(v), Some(rest)) => Some([v] + rest)
      case _ => None
  }

  /** A count of values that forgiving-base64 decode accepts: four at a time, then none, two or three. */
  predicate DecodableLength(n: nat)
  {
    n == 0 || n == 2 || n == 3 || (n >= 4 && DecodableLength(n - 4))
  }

  lemma {:induction false} DecodableLengthMod(n: nat)
    ensures DecodableLength(n) <==> n % 4 != 1
  {
    if n >= 4 {
      DecodableLengthMod(n - 4);
    }
  }

  /** The three bytes of four values. */
  function DecodeGroup(a: Sextet, b: Sextet, c: Sextet, d: Sextet): seq<Byte>
  {
    [a * 4 + b / 16, (b % 16) * 16 + c / 4, (c % 4) * 64 + d]
  }

  /**
   * Four values give three bytes; a final two or three give one or two,
   * the leftover bits being dropped.
   */
  function DecodeSextets(v: seq<Sextet>): seq<Byte>
    requires DecodableLength(|v|)
  {
    if |v| == 0 then []
    else if |v| == 2 then DecodeGroup(v[0], v[1], 0, 0)[..1]
    else if |v| == 3 then DecodeGroup(v[0], v[1], v[2], 0)[..2]
    else DecodeGroup(v[0], v[1], v[2], v[3]) + DecodeSextets(v[4..])
  }

  /** Step 2 of forgiving-base64 decode: a length divisible by four loses one or two final `=`. */
  function StripPadding(t: string): (u: string)
    ensures |u| <= |t| && u == t[..|u|]
    ensures forall k :: |u| <= k < |t| ==> t[k] == '='
  {
    if |t| % 4 == 0 && |t| >= 2 && t[|t| - 1] == '=' && t[|t| - 2] == '=' then t[..|t| - 2]
    else if |t| % 4 == 0 && |t| >= 1 && t[|t| - 1] == '=' then t[..|t| - 1]
    else t
  }

  /** `atob(s)`: None when it throws `InvalidCharacterError`. */
  function Atob(s: string): (r: Option<string>)
    ensures r.Some? ==> IsBinary(r.value)
  {
    var u := StripPadding(RemoveWhitespace(s));
    if |u| % 4 == 1 then None
    else
      match Sextets(u)
      case None => None
      case Some(v) => DecodableLengthMod(|u|); Some(BinaryString(DecodeSextets(v)))
  }

  /** The four values of three bytes. */
  function EncodeGroup(x: Byte, y: Byte, z: Byte): seq<Sextet>
  {
    [x / 4, (x % 4) * 16 + y / 16, (y % 16) * 4 + z / 64, z % 64]
  }

  /** The 6-bit values of the unpadded base64 encoding of some bytes. */
  function EncodeSextets(b: seq<Byte>): (v: seq<Sextet>)
    ensures DecodableLength(|v|)
  {
    if |b| == 0 then []
    else if |b| == 1 then EncodeGroup(b[0], 0, 0)[..2]
    else if |b| == 2 then EncodeGroup(b[0], b[1], 0)[..3]
    else EncodeGroup(b[0], b[1], b[2]) + EncodeSextets(b[3..])
  }

  function CharsOf(v: seq<Sextet>): (s: string)
    ensures |s| == |v| && forall i :: 0 <= i < |v| ==> s[i] == SextetChar(v[i])
  {
    if |v| == 0 then "" else [SextetChar(v[0])] + CharsOf(v[1..])
  }

  /** Base64 without `=` padding. */
  function Encode(b: seq<Byte>): string
  {
    CharsOf(EncodeSextets(b))
  }

  /** `btoa(s)`: the padded encoding of a binary string. */
  function Btoa(s: string): string
    requires IsBinary(s)
  {
    Encode(BytesOf(s)) + Padding(|s|)
  }

  /** One group of three bytes decodes back from its four values. */
  lemma {:induction false} GroupRoundTrip(x: Byte, y: Byte, z: Byte)
    ensures var g := EncodeGroup(x, y, z); DecodeGroup(g[0], g[1], g[2], g[3]) == [x, y, z]
  {
    assert ((x % 4) * 16 + y / 16) / 16 == x % 4;
    assert ((x % 4) * 16 + y / 16) % 16 == y / 16;
    assert ((y % 16) * 4 + z / 64) / 4 == y % 16;
    assert ((y % 16) * 4 + z / 64) % 4 == z / 64;
  }

  lemma {:induction false} DecodeEncodeSextets(b: seq<Byte>)
    ensures DecodeSextets(EncodeSextets(b)) == b
    decreases |b|
  {
    if |b| == 0 {
    } else if |b| == 1 {
      GroupRoundTrip(b[0], 0, 0);
    } else if |b| == 2 {
      GroupRoundTrip(b[0], b[1], 0);
    } else {
      var g := EncodeGroup(b[0], b[1], b[2]);
      var rest := EncodeSextets(b[3..]);
      GroupRoundTrip(b[0], b[1], b[2]);
      DecodeEncodeSextets(b[3..]);
      assert (g + rest)[4..] == rest;
      assert b == [b[0], b[1], b[2]] + b[3..];
    }
  }

  /** The encoding's length: four characters per three bytes, and two or three for a final one or two. */
  lemma {:induction false} EncodeLength(b: seq<Byte>)
    ensures |EncodeSextets(b)| % 4 == (if |b| % 3 == 0 then 0 else |b| % 3 + 1)
    decreases |b|
  {
    if |b| >= 3 {
      EncodeLength(b[3..]);
    }
  }

  lemma {:induction false} SextetsOfChars(v: seq<Sextet>)
    ensures Sextets(CharsOf(v)) == Some(v)
  {
    var s := CharsOf(v);
    forall i | 0 <= i < |v|
      ensures SextetValue(s[i]) == Some(v[i])
    {
      SextetRoundTrip(v[i]);
    }
    assert Sextets(s).value == v;
  }

  /** The encoding uses only alphabet characters: no whitespace, no `=`, no `-` or `_`. */
  lemma {:induction false} EncodeAlphabet(b: seq<Byte>)
    ensures forall i :: 0 <= i < |Encode(b)| ==>
              && !IsAsciiWhitespace(Encode(b)[i]) && Encode(b)[i] !in "=-_."
              && SextetValue(Encode(b)[i]).Some?
  {
    var v := EncodeSextets(b);
    forall i | 0 <= i < |Encode(b)|
      ensures !IsAsciiWhitespace(Encode(b)[i]) && Encode(b)[i] !in "=-_."
      ensures SextetValue(Encode(b)[i]).Some?
    {
      assert Encode(b)[i] == SextetChar(v[i]);
      SextetRoundTrip(v[i]);
    }
  }

  /** Every byte sequence survives unpadded encoding and `atob`. */
  lemma {:induction false} EncodeRoundTrip(b: seq<Byte>)
    ensures Atob(Encode(b)) == Some(BinaryString(b))
  {
    var v := EncodeSextets(b);
    var e := Encode(b);
    DecodeEncodeSextets(b);
    DecodableLengthMod(|e|);
    EncodeAlphabet(b);
    assert RemoveWhitespace(e) == e;
    assert StripPadding(e) == e;
    SextetsOfChars(v);
  }

  /** The `=` padding `btoa` appends to the encoding of `n` bytes. */
  function Padding(n: nat): string
  {
    if n % 3 == 1 then "==" else if n % 3 == 2 then "=" else ""
  }

  /** `atob` ignores no character of the alphabet: none is whitespace or `=`. */
  lemma {:induction false} AlphabetIsNotPadding(c: char)
    requires SextetValue(c).Some?
    ensures !IsAsciiWhitespace(c) && c != '='
  {
  }

  /** `=` padding after alphabet characters, up to a multiple of four, is what `atob` strips. */
  lemma {:induction false} PaddingStripped(e: string, p: string)
    requires forall i :: 0 <= i < |e| ==> SextetValue(e[i]).Some?
    requires p == "" || ((p == "=" || p == "==") && (|e| + |p|) % 4 == 0)
    ensures StripPadding(RemoveWhitespace(e + p)) == e
  {
    var t := e + p;
    forall i | 0 <= i < |t|
      ensures !IsAsciiWhitespace(t[i])
    {
      if i < |e| {
        AlphabetIsNotPadding(e[i]);
      }
    }
    assert RemoveWhitespace(t) == t;
    if |e| > 0 {
      AlphabetIsNotPadding(e[|e| - 1]);
    }
    if p == "==" {
      assert t[|t| - 1] == '=' && t[|t| - 2] == '=';
      assert t[..|t| - 2] == e;
    } else if p == "=" {
      assert t[|t| - 1] == '=' && t[|t| - 2] == e[|e| - 1];
      assert t[..|t| - 1] == e;
    } else {
      assert t == e;
    }
  }

  /** Padded encoding followed by `atob` gives back the bytes. */
  lemma {:induction false} PaddedRoundTrip(b: seq<Byte>)
    ensures Atob(Encode(b) + Padding(|b|)) == Some(BinaryString(b))
  {
    var e := Encode(b);
    EncodeLength(b);
    EncodeAlphabet(b);
    PaddingStripped(e, Padding(|b|));
    EncodeRoundTrip(b);
  }

  /** `atob` inverts `btoa`. */
  lemma {:induction false} BtoaRoundTrip(s: string)
    requires IsBinary(s)
    ensures Atob(Btoa(s)) == Some(s)
  {
    PaddedRoundTrip(BytesOf(s));
    BinaryStringOfBytes(s);
  }

  // ---------------------------------------------------------------------
  // base64url (section 5 of RFC 4648)
  // ---------------------------------------------------------------------

  /** The base64url alphabet: `-` and `_` in place of `+` and `/`. */
  function ToUrlAlphabet(s: string): (t: string)
    ensures |t| == |s|
    ensures forall i :: 0 <= i < |s| ==> t[i] == (if s[i] == '+' then '-' else if s[i] == '/' then '_' else s[i])
  {
    if |s| == 0 then "" else [if s[0] == '+' then '-' else if s[0] == '/' then '_' else s[0]] + ToUrlAlphabet(s[1..])
  }

  /** `s.replace(/-/g, '+').replace(/_/g, '/')`. */
  function FromUrlAlphabet(s: string): (t: string)
    ensures |t| == |s|
    ensures forall i :: 0 <= i < |s| ==> t[i] == (if s[i] == '-' then '+' else if s[i] == '_' then '/' else s[i])
  {
    if |s| == 0 then "" else [if s[0] == '-' then '+' else if s[0] == '_' then '/' else s[0]] + FromUrlAlphabet(s[1..])
  }

  /** The unpadded base64url encoding, as a JSON Web Token carries its segments. */
  function UrlEncode(b: seq<Byte>): string
  {
    ToUrlAlphabet(Encode(b))
  }

  /** Translating back to the standard alphabet and decoding with `atob` inverts base64url. */
  lemma {:induction false} UrlRoundTrip(b: seq<Byte>)
    ensures Atob(FromUrlAlphabet(UrlEncode(b))) == Some(BinaryString(b))
  {
    var e := Encode(b);
    EncodeAlphabet(b);
    assert FromUrlAlphabet(ToUrlAlphabet(e)) == e;
    EncodeRoundTrip(b);
  }

  /** A base64url encoding never contains the `.` that separates token segments. */
  lemma {:induction false} UrlEncodeHasNoDot(b: seq<Byte>)
    ensures '.' !in UrlEncode(b)
  {
    EncodeAlphabet(b);
    var u := UrlEncode(b);
    forall i | 0 <= i < |u|
      ensures u[i] != '.'
    {
      assert Encode(b)[i] != '.';
    }
  }

  /** The last byte of the `j`-th group of three is the low six bits of the group's fourth value. */
  lemma {:induction false} ThirdByteSextet(b: seq<Byte>, j: nat)
    requires 3 * j + 2 < |b|
    ensures 4 * j + 3 < |EncodeSextets(b)| && EncodeSextets(b)[4 * j + 3] == b[3 * j + 2] % 64
    decreases j
  {
    if j > 0 {
      ThirdByteSextet(b[3..], j - 1);
      assert b[3..][3 * (j - 1) + 2] == b[3 * j + 2];
      assert EncodeSextets(b) == EncodeGroup(b[0], b[1], b[2]) + EncodeSextets(b[3..]);
    }
  }

  /**
   * A byte whose low six bits are 62 or 63 (`>`, `?`, `~`, DEL among ASCII)
   * in the last place of a group puts `-` or `_` in the base64url encoding.
   */
  lemma {:induction false} UrlEncodeHasUrlOnlyChar(b: seq<Byte>, j: nat)
    requires 3 * j + 2 < |b| && b[3 * j + 2] % 64 >= 62
    ensures 4 * j + 3 < |UrlEncode(b)| && UrlEncode(b)[4 * j + 3] in "-_"
  {
    ThirdByteSextet(b, j);
    var v := EncodeSextets(b);
    assert Encode(b)[4 * j + 3] == SextetChar(v[4 * j + 3]);
  }

  /** `atob` rejects a string without whitespace or `=` whose length leaves one character over. */
  lemma {:induction false} AtobRejectsLength(s: string)
    requires forall i :: 0 <= i < |s| ==> !IsAsciiWhitespace(s[i]) && s[i] != '='
    requires |s| % 4 == 1
    ensures Atob(s) == None
  {
    assert RemoveWhitespace(s) == s;
  }

  /** `atob` rejects every string holding `-` or `_`. */
  lemma {:induction false} AtobRejectsUrlAlphabet(s: string, i: nat)
    requires i < |s| && (s[i] == '-' || s[i] == '_')
    ensures Atob(s) == None
  {
    var t := RemoveWhitespace(s);
    RemoveWhitespaceKeeps(s, i);
    var u := StripPadding(t);
    var j :| 0 <= j < |t| && t[j] == s[i];
    assert u[j] == s[i];
    assert SextetValue(u[j]).None?;
  }

  lemma {:induction false} RemoveWhitespaceKeeps(s: string, i: nat)
    requires i < |s| && !IsAsciiWhitespace(s[i])
    ensures exists j :: 0 <= j < |RemoveWhitespace(s)| && RemoveWhitespace(s)[j] == s[i]
  {
    if i == 0 {
      assert RemoveWhitespace(s)[0] == s[0];
    } else {
      RemoveWhitespaceKeeps(s[1..], i - 1);
      var j :| 0 <= j < |RemoveWhitespace(s[1..])| && RemoveWhitespace(s[1..])[j] == s[1..][i - 1];
      var head := if IsAsciiWhitespace(s[0]) then "" else [s[0]];
      assert RemoveWhitespace(s)[|head| + j] == s[i];
    }
  }
}
