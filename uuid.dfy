/**
 * Device identifiers: 128-bit UUIDs and their canonical text form, the
 * 8-4-4-4-12 grouping of lower-case hexadecimal digits of section 3 of
 * RFC 4122, as rendered by `uuid.UUID.String`.
 */
module Uuids {

  import opened Options
  import opened Encoding

  /** A UUID is sixteen octets. */
  type Uuid = b: seq<byte> | |b| == 16
    witness [0, 0, 0, 0, 0, 0, 0, 0, 0, 0, 0, 0, 0, 0, 0, 0]

  /** The nil UUID, all bits zero. */
  const NilUuid: Uuid := [0, 0, 0, 0, 0, 0, 0, 0, 0, 0, 0, 0, 0, 0, 0, 0]

  predicate IsLowerHex(c: char) {
    ('0' <= c <= '9') || ('a' <= c <= 'f')
  }

  function HexValue(c: char): (v: int)
    requires IsLowerHex(c)
    ensures 0 <= v < 16
  {
    if '0' <= c <= '9' then c as int - '0' as int else c as int - 'a' as int + 10
  }

  /** The lower-case hexadecimal digit of a 4-bit value. */
  function HexDigit(v: int): (c: char)
    requires 0 <= v < 16
    ensures IsLowerHex(c) && HexValue(c) == v
  {
    if v < 10 then ('0' as int + v) as char else ('a' as int + (v - 10)) as char
  }

  /** Two hexadecimal digits per octet, high nibble first. */
  function Hex(bs: seq<byte>): (s: string)
    ensures |s| == 2 * |bs|
    ensures forall i :: 0 <= i < |s| ==> IsLowerHex(s[i])
  {
    if |bs| == 0 then "" else [HexDigit(bs[0] / 16), HexDigit(bs[0] % 16)] + Hex(bs[1..])
  }

  /** The canonical text form `xxxxxxxx-xxxx-xxxx-xxxx-xxxxxxxxxxxx`. */
  function UuidString(u: Uuid): (s: string)
    ensures |s| == 36
  {
    Hex(u[..4]) + "-" + Hex(u[4..6]) + "-" + Hex(u[6..8]) + "-" + Hex(u[8..10]) + "-" + Hex(u[10..])
  }

  /** The text form is plain ASCII, so Go's `[]byte(id.String())` is its characters one octet each. */
  lemma UuidStringAscii(u: Uuid)
    ensures IsAscii(UuidString(u))
  {
    UuidStringShape(u);
  }

  /** Hyphens sit exactly at offsets 8, 13, 18 and 23; every other character is a hexadecimal digit. */
  lemma UuidStringShape(u: Uuid)
    ensures forall i :: 0 <= i < 36 ==> (UuidString(u)[i] == '-' <==> i == 8 || i == 13 || i == 18 || i == 23)
    ensures forall i :: 0 <= i < 36 ==> UuidString(u)[i] == '-' || IsLowerHex(UuidString(u)[i])
  {
  }

  /** Reads pairs of lower-case hexadecimal digits back into octets. */
  function ParseHex(s: string): (r: Option<seq<byte>>)
  {
    if |s| == 0 then Some([])
    else if |s| == 1 || !IsLowerHex(s[0]) || !IsLowerHex(s[1]) then None
    else match ParseHex(s[2..])
      case None => None
      case Some(rest) => Some([HexValue(s[0]) * 16 + HexValue(s[1])] + rest)
  }

  /** Reads the canonical text form back into a UUID; `None` for any other text. */
  function ParseUuid(s: string): (r: Option<Uuid>)
  {
    if |s| != 36 || s[8] != '-' || s[13] != '-' || s[18] != '-' || s[23] != '-' then None
    else
      match ParseHex(s[..8] + s[9..13] + s[14..18] + s[19..23] + s[24..])
      case Some(b) => if |b| == 16 then Some(b) else None
      case None => None
  }

  lemma {:induction false} HexRoundTrip(bs: seq<byte>)
    ensures ParseHex(Hex(bs)) == Some(bs)
  {
    if |bs| > 0 {
      var s := Hex(bs);
      assert s[2..] == Hex(bs[1..]);
      HexRoundTrip(bs[1..]);
      assert HexValue(s[0]) * 16 + HexValue(s[1]) == bs[0];
      assert [bs[0]] + bs[1..] == bs;
    }
  }

  /** Cutting the canonical form at its hyphens gives back the five digit groups. */
  lemma SplitGroups(a: string, b: string, c: string, d: string, e: string)
    requires |a| == 8 && |b| == 4 && |c| == 4 && |d| == 4 && |e| == 12
    ensures var s := a + "-" + b + "-" + c + "-" + d + "-" + e;
      && s[8] == '-' && s[13] == '-' && s[18] == '-' && s[23] == '-'
      && s[..8] + s[9..13] + s[14..18] + s[19..23] + s[24..] == a + b + c + d + e
  {
    var s := a + "-" + b + "-" + c + "-" + d + "-" + e;
    assert s[..8] == a && s[9..13] == b && s[14..18] == c && s[19..23] == d && s[24..] == e;
  }

  /** Parsing the text form of a UUID gives the UUID back, so distinct devices have distinct ids as text. */
  lemma UuidRoundTrip(u: Uuid)
    ensures ParseUuid(UuidString(u)) == Some(u)
  {
    SplitGroups(Hex(u[..4]), Hex(u[4..6]), Hex(u[6..8]), Hex(u[8..10]), Hex(u[10..]));
    HexConcat(u[..4], u[4..6]);
    HexConcat(u[..4] + u[4..6], u[6..8]);
    HexConcat(u[..4] + u[4..6] + u[6..8], u[8..10]);
    HexConcat(u[..4] + u[4..6] + u[6..8] + u[8..10], u[10..]);
    assert u[..4] + u[4..6] + u[6..8] + u[8..10] + u[10..] == u;
    HexRoundTrip(u);
  }

  lemma {:induction false} HexConcat(a: seq<byte>, b: seq<byte>)
    ensures Hex(a + b) == Hex(a) + Hex(b)
  {
    if |a| > 0 {
      assert (a + b)[0] == a[0] && (a + b)[1..] == a[1..] + b;
      HexConcat(a[1..], b);
    } else {
      assert a + b == b;
    }
  }

  /** Hex of `n` zero octets is `2 * n` zero digits. */
  lemma {:induction false} HexZeros(bs: seq<byte>)
    requires forall i :: 0 <= i < |bs| ==> bs[i] == 0
    ensures Hex(bs) == seq(2 * |bs|, _ => '0')
  {
    if |bs| > 0 {
      HexZeros(bs[1..]);
      assert Hex(bs) == "00" + seq(2 * (|bs| - 1), _ => '0');
    }
  }

  /** The nil UUID renders as thirty-two zeros in the usual groups. */
  lemma NilUuidString()
    ensures UuidString(NilUuid) == "00000000-0000-0000-0000-000000000000"
  {
    var u := NilUuid;
    var a, b, c, d, e := Hex(u[..4]), Hex(u[4..6]), Hex(u[6..8]), Hex(u[8..10]), Hex(u[10..]);
    assert a == "00000000" by { HexZeros(u[..4]); }
    assert b == "0000" by { HexZeros(u[4..6]); }
    assert c == "0000" by { HexZeros(u[6..8]); }
    assert d == "0000" by { HexZeros(u[8..10]); }
    assert e == "000000000000" by { HexZeros(u[10..]); }
    JoinGroups(a, b, c, d, e);
  }

  /** The octet at offset `i` of the nil UUID's text: `-` (45) at the four hyphens, `0` (48) elsewhere. */
  function NilTextByte(i: int): byte {
    if i == 8 || i == 13 || i == 18 || i == 23 then 45 else 48
  }

  /** The octets of the nil UUID's text, position by position. */
  lemma NilTextBytes()
    ensures IsAscii(UuidString(NilUuid))
    ensures |AsciiBytes(UuidString(NilUuid))| == 36
    ensures forall i :: 0 <= i < 36 ==> AsciiBytes(UuidString(NilUuid))[i] == NilTextByte(i)
  {
    UuidStringAscii(NilUuid);
    UuidStringShape(NilUuid);
    NilTextDigits();
  }

  /** Every character of the nil UUID's text other than a hyphen is `0`. */
  lemma NilTextDigits()
    ensures forall i :: 0 <= i < 36 && i != 8 && i != 13 && i != 18 && i != 23 ==> UuidString(NilUuid)[i] == '0'
  {
    var u := NilUuid;
    HexZeros(u[..4]); HexZeros(u[4..6]); HexZeros(u[6..8]); HexZeros(u[8..10]); HexZeros(u[10..]);
  }

  lemma JoinGroups(a: string, b: string, c: string, d: string, e: string)
    requires a == "00000000" && b == "0000" && c == "0000" && d == "0000" && e == "000000000000"
    ensures a + "-" + b + "-" + c + "-" + d + "-" + e == "00000000-0000-0000-0000-000000000000"
  {
  }
}
