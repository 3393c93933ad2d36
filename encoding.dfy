/**
 * Text encodings the signing service relies on: the standard base64
 * alphabet with `=` padding (section 4 of RFC 4648), as produced by Go's
 * `base64.StdEncoding.EncodeToString`, and the decimal rendering of an
 * unsigned counter, as produced by the `%d` verb of `fmt.Sprintf`.
 *
 * Each encoder comes with a decoder of our own and a round-trip lemma; the
 * decoders are specification devices, the service itself never decodes.
 */
module Encoding {

  import opened Options

  /** One octet. */
  type byte = x: int | 0 <= x < 256

  /** A base64 digit value. */
  type sextet = x: int | 0 <= x < 64

  // ---------------------------------------------------------------------
  // Base64 alphabet (Table 1 of RFC 4648)
  // ---------------------------------------------------------------------

  /** The character that encodes the 6-bit value `v`. */
  function Digit(v: sextet): (c: char)
    ensures IsDigit(c) && DigitValue(c) == v
  {
    if v < 26 then ('A' as int + v) as char
    else if v < 52 then ('a' as int + (v - 26)) as char
    else if v < 62 then ('0' as int + (v - 52)) as char
    else if v == 62 then '+'
    else '/'
  }

  /** Whether `c` belongs to the standard base64 alphabet (padding excluded). */
  predicate IsDigit(c: char) {
    ('A' <= c <= 'Z') || ('a' <= c <= 'z') || ('0' <= c <= '9') || c == '+' || c == '/'
  }

  /** The 6-bit value of an alphabet character. */
  function DigitValue(c: char): (v: sextet)
    requires IsDigit(c)
  {
    if 'A' <= c <= 'Z' then c as int - 'A' as int
    else if 'a' <= c <= 'z' then c as int - 'a' as int + 26
    else if '0' <= c <= '9' then c as int - '0' as int + 52
    else if c == '+' then 62
    else 63
  }

  /** Characters that can appear in a base64 encoding: the alphabet and `=`. */
  predicate IsBase64Char(c: char) {
    IsDigit(c) || c == '='
  }

  // ---------------------------------------------------------------------
  // Encoding
  // ---------------------------------------------------------------------

  /** The four characters of one full 3-octet group. */
  function EncodeGroup(b0: byte, b1: byte, b2: byte): string {
    [Digit(b0 / 4), Digit((b0 % 4) * 16 + b1 / 16), Digit((b1 % 16) * 4 + b2 / 64), Digit(b2 % 64)]
  }

  /** A final group of one octet: two digits and two padding characters. */
  function EncodeTail1(b0: byte): string {
    [Digit(b0 / 4), Digit((b0 % 4) * 16), '=', '=']
  }

  /** A final group of two octets: three digits and one padding character. */
  function EncodeTail2(b0: byte, b1: byte): string {
    [Digit(b0 / 4), Digit((b0 % 4) * 16 + b1 / 16), Digit((b1 % 16) * 4), '=']
  }

  /** Standard base64 with padding, group by group from the front. */
  function Base64Encode(b: seq<byte>): (s: string)
    decreases |b|
  {
    if |b| == 0 then ""
    else if |b| == 1 then EncodeTail1(b[0])
    else if |b| == 2 then EncodeTail2(b[0], b[1])
    else EncodeGroup(b[0], b[1], b[2]) + Base64Encode(b[3..])
  }

  /** Every three octets, or fewer at the end, become four characters. */
  lemma {:induction false} Base64Length(b: seq<byte>)
    ensures |Base64Encode(b)| == 4 * ((|b| + 2) / 3)
    decreases |b|
  {
    if |b| > 2 {
      Base64Length(b[3..]);
      assert Base64Encode(b) == EncodeGroup(b[0], b[1], b[2]) + Base64Encode(b[3..]);
      assert (|b| + 2) / 3 == (|b[3..]| + 2) / 3 + 1;
    }
  }

  /** Encoding works group by group: a prefix of whole groups encodes on its own. */
  lemma {:induction false} Base64EncodeConcat(a: seq<byte>, b: seq<byte>)
    requires |a| % 3 == 0
    ensures Base64Encode(a + b) == Base64Encode(a) + Base64Encode(b)
    decreases |a|
  {
    if |a| == 0 {
      assert a + b == b;
    } else {
      assert (a + b)[3..] == a[3..] + b;
      Base64EncodeConcat(a[3..], b);
    }
  }

  /** Nine octets are three full groups. */
  lemma Base64Nine(x: seq<byte>)
    requires |x| == 9
    ensures Base64Encode(x) == EncodeGroup(x[0], x[1], x[2]) + (EncodeGroup(x[3], x[4], x[5]) + EncodeGroup(x[6], x[7], x[8]))
  {
    var y := x[3..];
    var z := y[3..];
    assert Base64Encode(z) == EncodeGroup(x[6], x[7], x[8]) + Base64Encode(z[3..]);
  }

  // ---------------------------------------------------------------------
  // Decoding (the partner of Base64Encode)
  // ---------------------------------------------------------------------

  /** Decodes a padded base64 string; `None` for anything malformed. */
  function Base64Decode(s: string): (r: Option<seq<byte>>)
    decreases |s|
  {
    if |s| == 0 then Some([])
    else if |s| < 4 || !IsDigit(s[0]) || !IsDigit(s[1]) then None
    else
      var v0, v1 := DigitValue(s[0]), DigitValue(s[1]);
      if s[2] == '=' && s[3] == '=' then
        if |s| == 4 then Some([v0 * 4 + v1 / 16]) else None
      else if !IsDigit(s[2]) then None
      else
        var v2 := DigitValue(s[2]);
        if s[3] == '=' then
          if |s| == 4 then Some([v0 * 4 + v1 / 16, (v1 % 16) * 16 + v2 / 4]) else None
        else if !IsDigit(s[3]) then None
        else
          var v3 := DigitValue(s[3]);
          match Base64Decode(s[4..])
          case None => None
          case Some(rest) =>
            Some([v0 * 4 + v1 / 16, (v1 % 16) * 16 + v2 / 4, (v2 % 4) * 64 + v3] + rest)
  }

  /** Decoding a one-octet final group gives back the octet. */
  lemma Tail1RoundTrip(b0: byte)
    ensures Base64Decode(EncodeTail1(b0)) == Some([b0])
  {
    var s := EncodeTail1(b0);
    var v0: int, v1: int := DigitValue(s[0]), DigitValue(s[1]);
    assert v0 == b0 / 4 && v1 == (b0 % 4) * 16;
    assert v0 * 4 + v1 / 16 == b0;
  }

  /** Decoding a two-octet final group gives back the octets. */
  lemma Tail2RoundTrip(b0: byte, b1: byte)
    ensures Base64Decode(EncodeTail2(b0, b1)) == Some([b0, b1])
  {
    var s := EncodeTail2(b0, b1);
    var v0: int, v1: int, v2: int := DigitValue(s[0]), DigitValue(s[1]), DigitValue(s[2]);
    assert v0 == b0 / 4 && v1 == (b0 % 4) * 16 + b1 / 16 && v2 == (b1 % 16) * 4;
    assert v0 * 4 + v1 / 16 == b0;
    assert (v1 % 16) * 16 + v2 / 4 == b1;
  }

  /** The octet arithmetic of a full group: the four sextets give back the three octets. */
  lemma GroupArithmetic(b0: byte, b1: byte, b2: byte)
    ensures var v0, v1, v2, v3 := b0 / 4, (b0 % 4) * 16 + b1 / 16, (b1 % 16) * 4 + b2 / 64, b2 % 64;
      v0 * 4 + v1 / 16 == b0 && (v1 % 16) * 16 + v2 / 4 == b1 && (v2 % 4) * 64 + v3 == b2
  {
  }

  /** Decoding a full group followed by more text decodes the group, then the rest. */
  lemma GroupDecode(b0: byte, b1: byte, b2: byte, rest: string)
    ensures Base64Decode(EncodeGroup(b0, b1, b2) + rest)
         == match Base64Decode(rest)
            case None => None
            case Some(r) => Some([b0, b1, b2] + r)
  {
    var g := EncodeGroup(b0, b1, b2);
    var s := g + rest;
    assert s[..4] == g && s[4..] == rest;
    assert s[2] != '=' && s[3] != '=';
    GroupArithmetic(b0, b1, b2);
  }

  /** Decoding an encoding gives back the octets: base64 loses nothing. */
  lemma {:induction false} Base64RoundTrip(b: seq<byte>)
    ensures Base64Decode(Base64Encode(b)) == Some(b)
    decreases |b|
  {
    if |b| == 0 {
    } else if |b| == 1 {
      assert Base64Encode(b) == EncodeTail1(b[0]);
      Tail1RoundTrip(b[0]);
      assert [b[0]] == b;
    } else if |b| == 2 {
      assert Base64Encode(b) == EncodeTail2(b[0], b[1]);
      Tail2RoundTrip(b[0], b[1]);
      assert [b[0], b[1]] == b;
    } else {
      assert Base64Encode(b) == EncodeGroup(b[0], b[1], b[2]) + Base64Encode(b[3..]);
      GroupDecode(b[0], b[1], b[2], Base64Encode(b[3..]));
      Base64RoundTrip(b[3..]);
      assert [b[0], b[1], b[2]] + b[3..] == b;
    }
  }

  /** Different octet strings never share an encoding. */
  lemma Base64Injective(a: seq<byte>, b: seq<byte>)
    requires Base64Encode(a) == Base64Encode(b)
    ensures a == b
  {
    Base64RoundTrip(a);
    Base64RoundTrip(b);
  }

  /** A base64 encoding consists of alphabet characters and `=` only. */
  lemma {:induction false} Base64Alphabet(b: seq<byte>)
    ensures forall i :: 0 <= i < |Base64Encode(b)| ==> IsBase64Char(Base64Encode(b)[i])
    decreases |b|
  {
    if |b| > 2 {
      Base64Alphabet(b[3..]);
      assert Base64Encode(b) == EncodeGroup(b[0], b[1], b[2]) + Base64Encode(b[3..]);
    }
  }

  /**
   * The RFC 4648 encoding of the octets of the text `signed_data`, the
   * signer output of the service's success scenario.
   */
  lemma SignedDataEncoding(b: seq<byte>)
    requires b == [115, 105, 103, 110, 101, 100, 95, 100, 97, 116, 97]
    ensures Base64Encode(b) == "c2lnbmVkX2RhdGE="
  {
    var t1 := b[3..];
    var t2 := t1[3..];
    var t3 := t2[3..];
    assert Base64Encode(t3) == "dGE=" by {
      assert t3 == [116, 97];
      assert 116 / 4 == 29 && (116 % 4) * 16 + 97 / 16 == 6 && (97 % 16) * 4 == 4;
    }
    assert Base64Encode(t2) == "X2Rh" + Base64Encode(t3) by {
      assert t2[..3] == [95, 100, 97];
      assert 95 / 4 == 23 && (95 % 4) * 16 + 100 / 16 == 54 && (100 % 16) * 4 + 97 / 64 == 17 && 97 % 64 == 33;
    }
    assert Base64Encode(t1) == "bmVk" + Base64Encode(t2) by {
      assert t1[..3] == [110, 101, 100];
      assert 110 / 4 == 27 && (110 % 4) * 16 + 101 / 16 == 38 && (101 % 16) * 4 + 100 / 64 == 21 && 100 % 64 == 36;
    }
    assert Base64Encode(b) == "c2ln" + Base64Encode(t1) by {
      assert 115 / 4 == 28 && (115 % 4) * 16 + 105 / 16 == 54 && (105 % 16) * 4 + 103 / 64 == 37 && 103 % 64 == 39;
    }
    assert "c2ln" + ("bmVk" + ("X2Rh" + "dGE=")) == "c2lnbmVkX2RhdGE=";
  }

  // ---------------------------------------------------------------------
  // ASCII text as octets
  // ---------------------------------------------------------------------

  /** Whether every character of `s` is 7-bit ASCII. */
  predicate IsAscii(s: string) {
    forall i :: 0 <= i < |s| ==> s[i] as int < 128
  }

  /** The octets of an ASCII string (Go's `[]byte(s)` on ASCII text). */
  function AsciiBytes(s: string): (b: seq<byte>)
    requires IsAscii(s)
    ensures |b| == |s|
    ensures forall i :: 0 <= i < |s| ==> b[i] == s[i] as int
  {
    if |s| == 0 then [] else [s[0] as int] + AsciiBytes(s[1..])
  }

  // ---------------------------------------------------------------------
  // Decimal rendering of a counter
  // ---------------------------------------------------------------------

  predicate IsDecimalDigit(c: char) {
    '0' <= c <= '9'
  }

  /** `n` in base ten without leading zeros, as `%d` renders it. */
  function Decimal(n: nat): (s: string)
    ensures |s| > 0
    ensures forall i :: 0 <= i < |s| ==> IsDecimalDigit(s[i])
  {
    if n < 10 then [('0' as int + n) as char]
    else Decimal(n / 10) + [('0' as int + n % 10) as char]
  }

  /** Reads a string of decimal digits back into a number. */
  function ParseDecimal(s: string): (n: nat)
    requires forall i :: 0 <= i < |s| ==> IsDecimalDigit(s[i])
  {
    if |s| == 0 then 0
    else
      assert IsDecimalDigit(s[|s| - 1]);
      ParseDecimal(s[..|s| - 1]) * 10 + (s[|s| - 1] as int - '0' as int)
  }

  /** Parsing a rendered counter gives the counter back. */
  lemma {:induction false} DecimalRoundTrip(n: nat)
    ensures ParseDecimal(Decimal(n)) == n
  {
    if n >= 10 {
      var s := Decimal(n);
      assert s[..|s| - 1] == Decimal(n / 10);
      DecimalRoundTrip(n / 10);
    }
  }
}
