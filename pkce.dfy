/** The Proof Key for Code Exchange helpers of the catalogue sign-in (RFC 7636): random strings
    over a 62-character alphabet for the code verifier and the state, and the base64url text of
    the verifier's SHA-256 digest as the code challenge. The random bytes and the digest come from
    the platform's crypto and are parameters here. */
module Pkce {
  import opened Wrappers
  import opened Strings

  type Byte = x: int | 0 <= x < 256

  // ---------------------------------------------------------------------------------------------
  // Random strings

  /** `possible` of `generateRandomString`: the 26 capital letters, the 26 small letters and the
      ten digits, in that order. */
  const Possible: string := Upper + Lower + Digits

  predicate IsAlphanumeric(c: char) { ('A' <= c <= 'Z') || ('a' <= c <= 'z') || ('0' <= c <= '9') }

  /** The unreserved characters a code verifier may use (section 4.1 of RFC 7636). */
  predicate IsUnreserved(c: char) { IsAlphanumeric(c) || c == '-' || c == '.' || c == '_' || c == '~' }

  predicate AllAlphanumeric(s: string) { forall i :: 0 <= i < |s| ==> IsAlphanumeric(s[i]) }

  lemma AllAlphanumericAppend(a: string, b: string)
    requires AllAlphanumeric(a) && AllAlphanumeric(b)
    ensures AllAlphanumeric(a + b)
  {
    forall i | 0 <= i < |a + b| ensures IsAlphanumeric((a + b)[i]) {
      if i < |a| { assert (a + b)[i] == a[i]; } else { assert (a + b)[i] == b[i - |a|]; }
    }
  }

  const Upper: string := "ABCDEFGHIJKLMNOPQRSTUVWXYZ"
  const Lower: string := "abcdefghijklmnopqrstuvwxyz"
  const Digits: string := "0123456789"

  lemma UpperIsAlphanumeric()
    ensures AllAlphanumeric(Upper)
  {
    assert forall i :: 0 <= i < 26 ==> 'A' <= Upper[i] <= 'Z';
  }

  lemma LowerIsAlphanumeric()
    ensures AllAlphanumeric(Lower)
  {
    assert forall i :: 0 <= i < 26 ==> 'a' <= Lower[i] <= 'z';
  }

  lemma DigitsAreAlphanumeric()
    ensures AllAlphanumeric(Digits)
  {
    assert forall i :: 0 <= i < 10 ==> '0' <= Digits[i] <= '9';
  }

  lemma PossibleIsAlphanumeric()
    ensures |Possible| == 62 && AllAlphanumeric(Possible)
  {
    UpperIsAlphanumeric();
    LowerIsAlphanumeric();
    DigitsAreAlphanumeric();
    AllAlphanumericAppend(Upper, Lower);
    AllAlphanumericAppend(Upper + Lower, Digits);
  }

  /** `values.reduce((acc, x) => acc + possible[x % possible.length], '')` over the given
      random bytes. */
  function RandomString(bytes: seq<Byte>): (r: string)
    ensures |r| == |bytes|
    ensures forall i :: 0 <= i < |r| ==> r[i] == Possible[bytes[i] % 62]
  {
    if bytes == [] then ""
    else
      var init := RandomString(bytes[..|bytes| - 1]);
      var r := init + [Possible[bytes[|bytes| - 1] % 62]];
      assert forall i :: 0 <= i < |init| ==> r[i] == init[i] && bytes[i] == bytes[..|bytes| - 1][i];
      r
  }

  /** Every character of a random string is a letter or a digit. */
  lemma RandomStringIsAlphanumeric(bytes: seq<Byte>)
    ensures AllAlphanumeric(RandomString(bytes))
  {
    PossibleIsAlphanumeric();
    var r := RandomString(bytes);
    forall i | 0 <= i < |r| ensures IsAlphanumeric(r[i]) {
      assert r[i] == Possible[bytes[i] % 62];
    }
  }

  /** `generateCodeVerifier`: 64 characters, within the 43 to 128 unreserved characters that
      section 4.1 of RFC 7636 allows. */
  function CodeVerifier(bytes: seq<Byte>): (r: string)
    requires |bytes| == 64
    ensures |r| == 64 && 43 <= |r| <= 128
    ensures forall i :: 0 <= i < |r| ==> IsUnreserved(r[i])
  {
    RandomStringIsAlphanumeric(bytes);
    RandomString(bytes)
  }

  /** `generateState`: 16 characters, so never the empty (falsy) string. */
  function State(bytes: seq<Byte>): (r: string)
    requires |bytes| == 16
    ensures |r| == 16 && r != ""
    ensures forall i :: 0 <= i < |r| ==> IsAlphanumeric(r[i])
  {
    RandomStringIsAlphanumeric(bytes);
    RandomString(bytes)
  }

  // ---------------------------------------------------------------------------------------------
  // Base64

  /** The 6-bit values base64 cuts the bytes into, three bytes to four values; a final one or two
      bytes give two or three values (section 4 of RFC 4648, before padding). */
  function Sextets(b: seq<Byte>): (r: seq<nat>)
    ensures |r| == (4 * |b| + 2) / 3
    ensures forall i :: 0 <= i < |r| ==> r[i] < 64
  {
    if |b| == 0 then []
    else if |b| == 1 then [b[0] / 4, (b[0] % 4) * 16]
    else if |b| == 2 then [b[0] / 4, (b[0] % 4) * 16 + b[1] / 16, (b[1] % 16) * 4]
    else [b[0] / 4, (b[0] % 4) * 16 + b[1] / 16, (b[1] % 16) * 4 + b[2] / 64, b[2] % 64] + Sextets(b[3..])
  }

  /** The base64 alphabet (`+` and `/` for 62 and 63). */
  function StdChar(v: nat): char
    requires v < 64
  {
    if v < 26 then ('A' as int + v) as char
    else if v < 52 then ('a' as int + v - 26) as char
    else if v < 62 then ('0' as int + v - 52) as char
    else if v == 62 then '+' else '/'
  }

  /** The base64url alphabet (`-` and `_` for 62 and 63, section 5 of RFC 4648). */
  function UrlChar(v: nat): (c: char)
    requires v < 64
    ensures IsAlphanumeric(c) || c == '-' || c == '_'
  {
    if v < 26 then ('A' as int + v) as char
    else if v < 52 then ('a' as int + v - 26) as char
    else if v < 62 then ('0' as int + v - 52) as char
    else if v == 62 then '-' else '_'
  }

  function Padding(n: nat): string {
    if n % 3 == 1 then "==" else if n % 3 == 2 then "=" else ""
  }

  /** `btoa(binary)`: the base64 text of the character codes, padded with `=` to a multiple of
      four; `None` when a character lies above U+00FF (the `InvalidCharacterError` it throws). */
  function Btoa(binary: string): (r: Option<string>)
    ensures r.Some? <==> forall i :: 0 <= i < |binary| ==> binary[i] as int < 256
  {
    if forall i :: 0 <= i < |binary| ==> binary[i] as int < 256 then
      var codes := seq(|binary|, i requires 0 <= i < |binary| && binary[i] as int < 256 => binary[i] as int as Byte);
      var vs := Sextets(codes);
      Some(seq(|vs|, i requires 0 <= i < |vs| => StdChar(vs[i])) + Padding(|binary|))
    else None
  }

  /** The base64url text of the bytes, without padding. */
  function UrlEncoding(b: seq<Byte>): (r: string)
    ensures |r| == (4 * |b| + 2) / 3
    ensures forall i :: 0 <= i < |r| ==> IsAlphanumeric(r[i]) || r[i] == '-' || r[i] == '_'
  {
    var vs := Sextets(b);
    seq(|vs|, i requires 0 <= i < |vs| => UrlChar(vs[i]))
  }

  /** `s.replace(/=+$/, '')`: the trailing run of `=` removed. */
  function StripPadding(s: string): (r: string)
    ensures |r| <= |s| && r == s[..|r|]
    ensures r == [] || r[|r| - 1] != '='
    ensures forall i :: |r| <= i < |s| ==> s[i] == '='
  {
    if |s| > 0 && s[|s| - 1] == '=' then StripPadding(s[..|s| - 1]) else s
  }

  lemma StripPaddingOf(body: string, pad: string)
    requires (body == [] || body[|body| - 1] != '=') && forall i :: 0 <= i < |pad| ==> pad[i] == '='
    ensures StripPadding(body + pad) == body
    decreases |pad|
  {
    if pad == [] {
      assert body + pad == body;
      if body != [] { assert body[|body| - 1] != '='; }
    } else {
      assert (body + pad)[..|body + pad| - 1] == body + pad[..|pad| - 1];
      StripPaddingOf(body, pad[..|pad| - 1]);
    }
  }

  /** The loop of `base64URLEncode`: one character per byte, with the byte as its code. */
  method BinaryString(bytes: seq<Byte>) returns (binary: string)
    ensures |binary| == |bytes| && forall i :: 0 <= i < |bytes| ==> binary[i] as int == bytes[i]
  {
    binary := "";
    for i := 0 to |bytes|
      invariant |binary| == i && forall j :: 0 <= j < i ==> binary[j] as int == bytes[j]
    {
      binary := binary + [bytes[i] as char];
    }
  }

  /** `base64URLEncode`: `btoa` of the byte string, with `+` and `/` replaced by `-` and `_`
      and the padding removed; that is the base64url encoding of the bytes. */
  method Base64UrlEncode(bytes: seq<Byte>) returns (r: string)
    ensures r == UrlEncoding(bytes)
  {
    var binary := BinaryString(bytes);
    var b64 := Btoa(binary);
    var codes := seq(|binary|, i requires 0 <= i < |binary| && binary[i] as int < 256 => binary[i] as int as Byte);
    assert codes == bytes;
    var vs := Sextets(bytes);
    var std := seq(|vs|, i requires 0 <= i < |vs| => StdChar(vs[i]));
    assert b64.value == std + Padding(|bytes|);
    var pad := Padding(|bytes|);
    assert '+' !in pad && '/' !in pad;
    ReplaceAppend(std, pad, '+', '-');
    ReplaceAbsent(pad, '+', '-');
    ReplaceAppend(ReplaceChar(std, '+', '-'), pad, '/', '_');
    ReplaceAbsent(pad, '/', '_');
    var url := ReplaceChar(ReplaceChar(std, '+', '-'), '/', '_');
    assert url == UrlEncoding(bytes);
    StripPaddingOf(url, pad);
    r := StripPadding(ReplaceChar(ReplaceChar(b64.value, '+', '-'), '/', '_'));
  }

  /** `generateCodeChallenge` for the verifier's SHA-256 digest: 43 characters for the 32 bytes. */
  method CodeChallenge(digest: seq<Byte>) returns (r: string)
    ensures r == UrlEncoding(digest)
    ensures |digest| == 32 ==> |r| == 43
  {
    r := Base64UrlEncode(digest);
  }

  // ---------------------------------------------------------------------------------------------
  // Decoding, the inverse the encoding is checked against

  function UrlValue(c: char): (r: Option<nat>)
    ensures r.Some? ==> r.value < 64
  {
    if 'A' <= c <= 'Z' then Some(c as int - 'A' as int)
    else if 'a' <= c <= 'z' then Some(c as int - 'a' as int + 26)
    else if '0' <= c <= '9' then Some(c as int - '0' as int + 52)
    else if c == '-' then Some(62)
    else if c == '_' then Some(63)
    else None
  }

  lemma UrlValueOfChar(v: nat)
    requires v < 64
    ensures UrlValue(UrlChar(v)) == Some(v)
  {
  }

  /** Four 6-bit values back to three bytes; two or three final values to one or two bytes. */
  function BytesOf(vs: seq<nat>): Option<seq<Byte>>
    requires forall i :: 0 <= i < |vs| ==> vs[i] < 64
  {
    if |vs| == 0 then Some([])
    else if |vs| == 1 then None
    else if |vs| == 2 then Some([vs[0] * 4 + vs[1] / 16])
    else if |vs| == 3 then Some([vs[0] * 4 + vs[1] / 16, (vs[1] % 16) * 16 + vs[2] / 4])
    else
      match BytesOf(vs[4..])
      case None => None
      case Some(rest) => Some([vs[0] * 4 + vs[1] / 16, (vs[1] % 16) * 16 + vs[2] / 4, (vs[2] % 4) * 64 + vs[3]] + rest)
  }

  /** base64url decoding of unpadded text (section 5 of RFC 4648), `None` on a character outside
      the alphabet or a length that no byte string encodes to. */
  function UrlDecode(s: string): Option<seq<Byte>> {
    if forall i :: 0 <= i < |s| ==> UrlValue(s[i]).Some? then
      BytesOf(seq(|s|, i requires 0 <= i < |s| && UrlValue(s[i]).Some? => UrlValue(s[i]).value))
    else None
  }

  lemma GroupRoundTrip(x: Byte, y: Byte, z: Byte)
    ensures (x / 4) * 4 + ((x % 4) * 16 + y / 16) / 16 == x
    ensures (((x % 4) * 16 + y / 16) % 16) * 16 + ((y % 16) * 4 + z / 64) / 4 == y
    ensures (((y % 16) * 4 + z / 64) % 4) * 64 + z % 64 == z
  {
  }

  lemma OneByteRoundTrip(x: Byte)
    ensures BytesOf(Sextets([x])) == Some([x])
  {
    assert (x / 4) * 4 + ((x % 4) * 16) / 16 == x;
  }

  lemma TwoBytesRoundTrip(x: Byte, y: Byte)
    ensures BytesOf(Sextets([x, y])) == Some([x, y])
  {
    assert (x / 4) * 4 + ((x % 4) * 16 + y / 16) / 16 == x;
    assert (((x % 4) * 16 + y / 16) % 16) * 16 + ((y % 16) * 4) / 4 == y;
  }

  lemma {:induction false} SextetsRoundTrip(b: seq<Byte>)
    ensures BytesOf(Sextets(b)) == Some(b)
    decreases |b|
  {
    if |b| == 1 {
      assert b == [b[0]];
      OneByteRoundTrip(b[0]);
    } else if |b| == 2 {
      assert b == [b[0], b[1]];
      TwoBytesRoundTrip(b[0], b[1]);
    } else if |b| >= 3 {
      GroupRoundTrip(b[0], b[1], b[2]);
      SextetsRoundTrip(b[3..]);
      var vs := Sextets(b);
      assert vs[4..] == Sextets(b[3..]);
      assert b == [b[0], b[1], b[2]] + b[3..];
    }
  }

  /** Decoding the base64url text gives back the bytes: the encoding loses nothing. */
  lemma UrlRoundTrip(b: seq<Byte>)
    ensures UrlDecode(UrlEncoding(b)) == Some(b)
  {
    var s := UrlEncoding(b);
    var vs := Sextets(b);
    forall i | 0 <= i < |s| ensures UrlValue(s[i]) == Some(vs[i]) {
      UrlValueOfChar(vs[i]);
    }
    assert seq(|s|, i requires 0 <= i < |s| && UrlValue(s[i]).Some? => UrlValue(s[i]).value) == vs;
    SextetsRoundTrip(b);
  }
}
