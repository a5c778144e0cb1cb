/** Byte encodings used by the OAuth2 helpers: UTF-8 and ASCII text
    encoding, and Base64 with the standard alphabet (section 4 of RFC 4648)
    or the URL- and filename-safe alphabet (section 5 of RFC 4648), with
    its decoder. */
module Encoding {
  import opened Common
  import opened Strings

  type Byte = b: int | 0 <= b < 256

  /** `str.encode()` of one character: its UTF-8 bytes. */
  function Utf8Char(c: char): (r: seq<Byte>)
    ensures 1 <= |r| <= 4
    ensures |r| == 1 <==> c as int < 128
    ensures |r| == 1 ==> r[0] == c as int
  {
    var cp := c as int;
    if cp < 0x80 then [cp]
    else if cp < 0x800 then [0xC0 + cp / 64, 0x80 + cp % 64]
    else if cp < 0x1_0000 then [0xE0 + cp / 4096, 0x80 + cp / 64 % 64, 0x80 + cp % 64]
    else [0xF0 + cp / 262144, 0x80 + cp / 4096 % 64, 0x80 + cp / 64 % 64, 0x80 + cp % 64]
  }

  /** `s.encode()` (UTF-8). */
  function Utf8Encode(s: string): (r: seq<Byte>)
    ensures |r| >= |s|
    ensures (forall i :: 0 <= i < |s| ==> s[i] as int < 128) ==> r == AsciiBytes(s)
    decreases |s|
  {
    if |s| == 0 then [] else Utf8Char(s[0]) + Utf8Encode(s[1..])
  }

  predicate IsAscii(s: string)
  {
    forall i :: 0 <= i < |s| ==> s[i] as int < 128
  }

  function AsciiBytes(s: string): (r: seq<Byte>)
    requires IsAscii(s)
    ensures |r| == |s|
    ensures forall i :: 0 <= i < |s| ==> r[i] == s[i] as int
  {
    seq(|s|, i requires 0 <= i < |s| => s[i] as int)
  }

  /** `s.encode("ascii")`: fails (UnicodeEncodeError) on any character
      outside ASCII. */
  function AsciiEncode(s: string): (r: Option<seq<Byte>>)
    ensures r.Some? <==> IsAscii(s)
    ensures r.Some? ==> |r.value| == |s| && forall i :: 0 <= i < |s| ==> r.value[i] == s[i] as int
  {
    if IsAscii(s) then Some(AsciiBytes(s)) else None
  }

  /** Bytes below 128 read back as characters (`bytes.decode()` on ASCII). */
  function AsciiDecode(b: seq<Byte>): (s: string)
    requires forall i :: 0 <= i < |b| ==> b[i] < 128
    ensures |s| == |b|
    ensures forall i :: 0 <= i < |b| ==> s[i] as int == b[i]
  {
    seq(|b|, i requires 0 <= i < |b| => b[i] as char)
  }

  lemma AsciiRoundTrip(s: string)
    requires IsAscii(s)
    ensures AsciiEncode(s).Some?
    ensures AsciiDecode(AsciiEncode(s).value) == s
  {
    var d := AsciiDecode(AsciiEncode(s).value);
    assert forall i :: 0 <= i < |s| ==> d[i] == s[i];
  }

  // ---------------------------------------------------------------------
  // Base64

  /** The character for a 6-bit value: `+` and `/` for 62 and 63 in the
      standard alphabet, `-` and `_` in the URL-safe one. */
  function Base64Char(urlsafe: bool, v: nat): (c: char)
    requires v < 64
    ensures c != '='
  {
    if v < 26 then (65 + v) as char
    else if v < 52 then (97 + v - 26) as char
    else if v < 62 then (48 + v - 52) as char
    else if v == 62 then (if urlsafe then '-' else '+')
    else (if urlsafe then '_' else '/')
  }

  /** The 6-bit value of an alphabet character; None for any other
      character, `=` included. */
  function Base64Value(urlsafe: bool, c: char): (r: Option<nat>)
    ensures r.Some? ==> r.value < 64 && Base64Char(urlsafe, r.value) == c
  {
    if 'A' <= c <= 'Z' then Some(c as int - 65)
    else if 'a' <= c <= 'z' then Some(c as int - 97 + 26)
    else if '0' <= c <= '9' then Some(c as int - 48 + 52)
    else if c == (if urlsafe then '-' else '+') then Some(62)
    else if c == (if urlsafe then '_' else '/') then Some(63)
    else None
  }

  predicate IsBase64Char(urlsafe: bool, c: char)
  {
    Base64Value(urlsafe, c).Some?
  }

  lemma PadIsNotBase64(urlsafe: bool, c: char)
    requires IsBase64Char(urlsafe, c)
    ensures c != '='
  {
    assert Base64Char(urlsafe, Base64Value(urlsafe, c).value) == c;
  }

  lemma ValueOfChar(urlsafe: bool, v: nat)
    requires v < 64
    ensures Base64Value(urlsafe, Base64Char(urlsafe, v)) == Some(v)
  {
  }

  /** Four characters for three bytes (24 bits), most significant first. */
  function Group3(urlsafe: bool, b0: Byte, b1: Byte, b2: Byte): (r: string)
    ensures |r| == 4 && forall i :: 0 <= i < 4 ==> IsBase64Char(urlsafe, r[i])
    ensures var n := (b0 * 256 + b1) * 256 + b2;
            && Base64Value(urlsafe, r[0]) == Some(n / 64 / 64 / 64)
            && Base64Value(urlsafe, r[1]) == Some(n / 64 / 64 % 64)
            && Base64Value(urlsafe, r[2]) == Some(n / 64 % 64)
            && Base64Value(urlsafe, r[3]) == Some(n % 64)
  {
    var n := (b0 * 256 + b1) * 256 + b2;
    var q1 := n / 64;
    var q2 := q1 / 64;
    ValueOfChar(urlsafe, q2 / 64);
    ValueOfChar(urlsafe, q2 % 64);
    ValueOfChar(urlsafe, q1 % 64);
    ValueOfChar(urlsafe, n % 64);
    [Base64Char(urlsafe, q2 / 64), Base64Char(urlsafe, q2 % 64),
     Base64Char(urlsafe, q1 % 64), Base64Char(urlsafe, n % 64)]
  }

  /** Three characters for a final two bytes (16 bits, zero-filled to 18). */
  function Group2(urlsafe: bool, b0: Byte, b1: Byte): (r: string)
    ensures |r| == 3 && forall i :: 0 <= i < 3 ==> IsBase64Char(urlsafe, r[i])
    ensures var n := (b0 * 256 + b1) * 4;
            && Base64Value(urlsafe, r[0]) == Some(n / 64 / 64)
            && Base64Value(urlsafe, r[1]) == Some(n / 64 % 64)
            && Base64Value(urlsafe, r[2]) == Some(n % 64)
  {
    var n := (b0 * 256 + b1) * 4;
    var q1 := n / 64;
    ValueOfChar(urlsafe, q1 / 64);
    ValueOfChar(urlsafe, q1 % 64);
    ValueOfChar(urlsafe, n % 64);
    [Base64Char(urlsafe, q1 / 64), Base64Char(urlsafe, q1 % 64), Base64Char(urlsafe, n % 64)]
  }

  /** Two characters for a final single byte (8 bits, zero-filled to 12). */
  function Group1(urlsafe: bool, b0: Byte): (r: string)
    ensures |r| == 2 && forall i :: 0 <= i < 2 ==> IsBase64Char(urlsafe, r[i])
    ensures Base64Value(urlsafe, r[0]) == Some(b0 * 16 / 64)
    ensures Base64Value(urlsafe, r[1]) == Some(b0 * 16 % 64)
  {
    var n := b0 * 16;
    ValueOfChar(urlsafe, n / 64);
    ValueOfChar(urlsafe, n % 64);
    [Base64Char(urlsafe, n / 64), Base64Char(urlsafe, n % 64)]
  }

  /** Length of the encoding of `n` bytes before `=` padding. */
  function UnpaddedLength(n: nat): nat
  {
    4 * (n / 3) + (if n % 3 == 0 then 0 else n % 3 + 1)
  }

  /** The Base64 characters of `b`, without the trailing `=` padding. */
  function EncodeUnpadded(urlsafe: bool, b: seq<Byte>): (r: string)
    ensures |r| == UnpaddedLength(|b|)
    ensures forall i :: 0 <= i < |r| ==> IsBase64Char(urlsafe, r[i])
    decreases |b|
  {
    if |b| == 0 then []
    else if |b| == 1 then Group1(urlsafe, b[0])
    else if |b| == 2 then Group2(urlsafe, b[0], b[1])
    else Group3(urlsafe, b[0], b[1], b[2]) + EncodeUnpadded(urlsafe, b[3..])
  }

  /** The `=` characters that complete the last group of four. */
  function Padding(n: nat): string
  {
    if n % 3 == 1 then "==" else if n % 3 == 2 then "=" else ""
  }

  /** `base64.b64encode` (standard alphabet) or `base64.urlsafe_b64encode`. */
  function Encode(urlsafe: bool, b: seq<Byte>): (r: string)
    ensures |r| == 4 * ((|b| + 2) / 3)
  {
    PaddedLength(|b|);
    EncodeUnpadded(urlsafe, b) + Padding(|b|)
  }

  lemma PaddedLength(n: nat)
    ensures UnpaddedLength(n) + |Padding(n)| == 4 * ((n + 2) / 3)
  {
    var q, r := n / 3, n % 3;
    assert n == 3 * q + r;
    assert (n + 2) / 3 == q + (r + 2) / 3;
  }

  /** Base64 decoding of padded input; None for malformed input. */
  function Decode(urlsafe: bool, s: string): Option<seq<Byte>>
    decreases |s|
  {
    if |s| == 0 then Some([])
    else if |s| < 4 then None
    else
      var v0, v1, v2, v3 :=
        Base64Value(urlsafe, s[0]), Base64Value(urlsafe, s[1]),
        Base64Value(urlsafe, s[2]), Base64Value(urlsafe, s[3]);
      if v0.None? || v1.None? then None
      else if |s| == 4 && s[2] == '=' && s[3] == '=' then
        Some([(v0.value * 64 + v1.value) / 16 % 256])
      else if v2.None? then None
      else if |s| == 4 && s[3] == '=' then
        var k := ((v0.value * 64 + v1.value) * 64 + v2.value) / 4;
        Some([k / 256 % 256, k % 256])
      else if v3.None? then None
      else
        var n := ((v0.value * 64 + v1.value) * 64 + v2.value) * 64 + v3.value;
        var k := n / 256;
        match Decode(urlsafe, s[4..])
        case None => None
        case Some(rest) => Some([k / 256 % 256, k % 256, n % 256] + rest)
  }

  lemma Split64(x: nat)
    ensures x / 64 * 64 + x % 64 == x && x % 64 < 64
  {
  }

  lemma Join256(q: nat, r: nat)
    requires r < 256
    ensures (q * 256 + r) / 256 == q && (q * 256 + r) % 256 == r
  {
  }

  /** The byte arithmetic of one full group: splitting 24 bits into four
      sextets and joining them again gives back the three bytes. */
  lemma Group3Arith(b0: Byte, b1: Byte, b2: Byte)
    ensures var n := (b0 * 256 + b1) * 256 + b2;
            var q1 := n / 64;
            var q2 := q1 / 64;
            var m := ((q2 / 64 * 64 + q2 % 64) * 64 + q1 % 64) * 64 + n % 64;
            m / 256 / 256 % 256 == b0 && m / 256 % 256 == b1 && m % 256 == b2
  {
    var n := (b0 * 256 + b1) * 256 + b2;
    var q1 := n / 64;
    var q2 := q1 / 64;
    Split64(n);
    Split64(q1);
    Split64(q2);
    Join256(b0 * 256 + b1, b2);
    Join256(b0, b1);
  }

  lemma Group2Arith(b0: Byte, b1: Byte)
    ensures var n := (b0 * 256 + b1) * 4;
            var q1 := n / 64;
            var k := ((q1 / 64 * 64 + q1 % 64) * 64 + n % 64) / 4;
            k / 256 % 256 == b0 && k % 256 == b1
  {
    var n := (b0 * 256 + b1) * 4;
    var q1 := n / 64;
    Split64(n);
    Split64(q1);
    Join256(b0, b1);
  }

  lemma Group3RoundTrip(urlsafe: bool, b0: Byte, b1: Byte, b2: Byte)
    ensures var g := Group3(urlsafe, b0, b1, b2);
            var n := ((Base64Value(urlsafe, g[0]).value * 64 + Base64Value(urlsafe, g[1]).value) * 64
                      + Base64Value(urlsafe, g[2]).value) * 64 + Base64Value(urlsafe, g[3]).value;
            n / 256 / 256 % 256 == b0 && n / 256 % 256 == b1 && n % 256 == b2
  {
    Group3Arith(b0, b1, b2);
  }

  lemma Group2RoundTrip(urlsafe: bool, b0: Byte, b1: Byte)
    ensures var g := Group2(urlsafe, b0, b1);
            var k := ((Base64Value(urlsafe, g[0]).value * 64 + Base64Value(urlsafe, g[1]).value) * 64
                     + Base64Value(urlsafe, g[2]).value) / 4;
            k / 256 % 256 == b0 && k % 256 == b1
  {
    Group2Arith(b0, b1);
  }

  lemma Group1RoundTrip(urlsafe: bool, b0: Byte)
    ensures var g := Group1(urlsafe, b0);
            (Base64Value(urlsafe, g[0]).value * 64 + Base64Value(urlsafe, g[1]).value) / 16 % 256 == b0
  {
    Split64(b0 * 16);
  }

  lemma DecodeOne(urlsafe: bool, b0: Byte)
    ensures Decode(urlsafe, Group1(urlsafe, b0) + "==") == Some([b0])
  {
    var s := Group1(urlsafe, b0) + "==";
    Group1RoundTrip(urlsafe, b0);
    assert s[2] == '=' && s[3] == '=';
  }

  lemma DecodeTwo(urlsafe: bool, b0: Byte, b1: Byte)
    ensures Decode(urlsafe, Group2(urlsafe, b0, b1) + "=") == Some([b0, b1])
  {
    var g := Group2(urlsafe, b0, b1);
    var s := g + "=";
    Group2RoundTrip(urlsafe, b0, b1);
    PadIsNotBase64(urlsafe, g[2]);
    assert s[2] == g[2] && s[3] == '=';
  }

  lemma DecodeGroup(urlsafe: bool, b0: Byte, b1: Byte, b2: Byte, t: string)
    ensures Decode(urlsafe, Group3(urlsafe, b0, b1, b2) + t)
            == match Decode(urlsafe, t)
               case None => None
               case Some(rest) => Some([b0, b1, b2] + rest)
  {
    var g := Group3(urlsafe, b0, b1, b2);
    var s := g + t;
    assert s[..4] == g && s[4..] == t;
    PadIsNotBase64(urlsafe, g[2]);
    PadIsNotBase64(urlsafe, g[3]);
    Group3RoundTrip(urlsafe, b0, b1, b2);
  }

  /** How the encoding of `b` splits into its first group and the rest. */
  lemma EncodeShape(urlsafe: bool, b: seq<Byte>)
    ensures |b| == 1 ==> Encode(urlsafe, b) == Group1(urlsafe, b[0]) + "=="
    ensures |b| == 2 ==> Encode(urlsafe, b) == Group2(urlsafe, b[0], b[1]) + "="
    ensures |b| >= 3 ==> Encode(urlsafe, b) == Group3(urlsafe, b[0], b[1], b[2]) + Encode(urlsafe, b[3..])
  {
    if |b| >= 3 {
      assert Padding(|b|) == Padding(|b| - 3);
    }
  }

  lemma FirstThree(b: seq<Byte>)
    requires |b| >= 3
    ensures [b[0], b[1], b[2]] + b[3..] == b
  {
    assert b == b[..3] + b[3..];
  }

  lemma DecodeEncodeShort(urlsafe: bool, b: seq<Byte>)
    requires 1 <= |b| <= 2
    ensures Decode(urlsafe, Encode(urlsafe, b)) == Some(b)
  {
    EncodeShape(urlsafe, b);
    if |b| == 1 {
      DecodeOne(urlsafe, b[0]);
      assert [b[0]] == b;
    } else {
      DecodeTwo(urlsafe, b[0], b[1]);
      assert [b[0], b[1]] == b;
    }
  }

  /** Decoding undoes encoding, for either alphabet. */
  lemma {:induction false} DecodeEncode(urlsafe: bool, b: seq<Byte>)
    ensures Decode(urlsafe, Encode(urlsafe, b)) == Some(b)
    decreases |b|
  {
    if |b| == 0 {
    } else if |b| <= 2 {
      DecodeEncodeShort(urlsafe, b);
    } else {
      EncodeShape(urlsafe, b);
      DecodeGroup(urlsafe, b[0], b[1], b[2], Encode(urlsafe, b[3..]));
      DecodeEncode(urlsafe, b[3..]);
      FirstThree(b);
    }
  }

  lemma {:induction false} RStripPad(u: string, p: string)
    requires |u| == 0 || u[|u| - 1] != '='
    requires forall i :: 0 <= i < |p| ==> p[i] == '='
    ensures RStrip(u + p, '=') == u
    decreases |p|
  {
    if |p| == 0 {
      assert u + p == u;
    } else {
      assert (u + p)[..|u + p| - 1] == u + p[..|p| - 1];
      RStripPad(u, p[..|p| - 1]);
    }
  }

  /** `rstrip("=")` of an encoding leaves exactly its unpadded characters. */
  lemma StripPadding(urlsafe: bool, b: seq<Byte>)
    ensures RStrip(Encode(urlsafe, b), '=') == EncodeUnpadded(urlsafe, b)
  {
    var u := EncodeUnpadded(urlsafe, b);
    if |u| > 0 {
      PadIsNotBase64(urlsafe, u[|u| - 1]);
    }
    RStripPad(u, Padding(|b|));
  }

  /** Restores the `=` padding that `rstrip("=")` removed. */
  function RePad(s: string): (r: string)
    ensures s <= r && |r| % 4 == 0
  {
    s + (if |s| % 4 == 2 then "==" else if |s| % 4 == 3 then "=" else if |s| % 4 == 1 then "===" else "")
  }

  lemma UnpaddedLengthMod(n: nat)
    ensures UnpaddedLength(n) % 4 == (if n % 3 == 0 then 0 else n % 3 + 1)
  {
    var k := 4 * (n / 3);
    assert k % 4 == 0;
  }

  lemma RePadUnpadded(urlsafe: bool, b: seq<Byte>)
    ensures RePad(EncodeUnpadded(urlsafe, b)) == Encode(urlsafe, b)
  {
    UnpaddedLengthMod(|b|);
  }
}
