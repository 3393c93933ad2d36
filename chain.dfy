/**
 * The chaining protocol of `SignTransaction`, as pure functions: the chain
 * link (the base case for a device that has not signed yet, otherwise the
 * previous signature), the payload `"<counter>_<data>_<link>"`, and what it
 * means for a device's log of signed data to form a valid chain.
 */
module Chain {

  import opened Options
  import opened Encoding
  import opened Uuids
  import opened Domain

  /** The link of a device's first entry: base64 of its id in canonical text form. */
  function BaseLink(id: Uuid): (link: string)
  {
    UuidStringAscii(id);
    Base64Encode(AsciiBytes(UuidString(id)))
  }

  /** The base link is 48 base64 characters and so never contains `_`. */
  lemma BaseLinkShape(id: Uuid)
    ensures |BaseLink(id)| == 48 && '_' !in BaseLink(id)
  {
    UuidStringAscii(id);
    var b := AsciiBytes(UuidString(id));
    assert |b| == 36 && (|b| + 2) / 3 == 12;
    Base64Length(b);
    Base64Alphabet(b);
  }

  /** Distinct devices have distinct base links. */
  lemma BaseLinkInjective(a: Uuid, b: Uuid)
    requires BaseLink(a) == BaseLink(b)
    ensures a == b
  {
    UuidStringAscii(a);
    UuidStringAscii(b);
    Base64Injective(AsciiBytes(UuidString(a)), AsciiBytes(UuidString(b)));
    assert UuidString(a) == UuidString(b) by {
      var sa, sb := UuidString(a), UuidString(b);
      forall i | 0 <= i < 36
        ensures sa[i] == sb[i]
      {
        assert AsciiBytes(sa)[i] == AsciiBytes(sb)[i];
      }
    }
    UuidRoundTrip(a);
    UuidRoundTrip(b);
  }

  /**
   * The base link of the nil id, `00000000-0000-0000-0000-000000000000` in
   * base64: the link in the service's success scenario. The 36 octets are
   * encoded as four runs of three groups each.
   */
  lemma NilBaseLink()
    ensures BaseLink(NilUuid) == "MDAwMDAwMDAtMDAwMC0wMDAwLTAwMDAtMDAwMDAwMDAwMDAw"
  {
    NilTextBytes();
    NilTextSplit(AsciiBytes(UuidString(NilUuid)));
  }

  // ---------------------------------------------------------------------
  // Splitting the nil base link for the solver: the lemmas below only break
  // the 48-character literal into runs and groups small enough to check.
  // ---------------------------------------------------------------------

  /** The 36 octets of the nil id's text, encoded as four runs of nine. */
  lemma NilTextSplit(b: seq<byte>)
    requires |b| == 36 && forall i :: 0 <= i < 36 ==> b[i] == NilTextByte(i)
    ensures Base64Encode(b) == "MDAwMDAwMDAtMDAwMC0wMDAwLTAwMDAtMDAwMDAwMDAwMDAw"
  {
    NilSlice(b, 0, b[0..9]);
    NilSlice(b, 9, b[9..18]);
    NilSlice(b, 18, b[18..27]);
    NilSlice(b, 27, b[27..36]);
    NilTextEncoding(b[0..9], b[9..18], b[18..27], b[27..36]);
    NilQuarters(b);
  }

  /** Nine octets of the nil id's text from offset `k`, as a slice. */
  lemma NilSlice(b: seq<byte>, k: nat, x: seq<byte>)
    requires |b| == 36 && forall i :: 0 <= i < 36 ==> b[i] == NilTextByte(i)
    requires k <= 27 && x == b[k..k + 9]
    ensures |x| == 9 && forall j :: 0 <= j < 9 ==> x[j] == NilTextByte(k + j)
  {
  }

  /** Base64 of the nil id's text octets, assembled from four runs of nine octets. */
  lemma NilTextEncoding(q1: seq<byte>, q2: seq<byte>, q3: seq<byte>, q4: seq<byte>)
    requires |q1| == 9 && forall j :: 0 <= j < 9 ==> q1[j] == NilTextByte(j)
    requires |q2| == 9 && forall j :: 0 <= j < 9 ==> q2[j] == NilTextByte(9 + j)
    requires |q3| == 9 && forall j :: 0 <= j < 9 ==> q3[j] == NilTextByte(18 + j)
    requires |q4| == 9 && forall j :: 0 <= j < 9 ==> q4[j] == NilTextByte(27 + j)
    ensures (Base64Encode(q1) + Base64Encode(q2)) + (Base64Encode(q3) + Base64Encode(q4))
      == "MDAwMDAwMDAtMDAwMC0wMDAwLTAwMDAtMDAwMDAwMDAwMDAw"
  {
    NilRun(q1, 0, NilRunText(0));
    NilRun(q2, 9, NilRunText(9));
    NilRun(q3, 18, NilRunText(18));
    NilRun(q4, 27, NilRunText(27));
    NilJoin(Base64Encode(q1), Base64Encode(q2), Base64Encode(q3), Base64Encode(q4));
  }

  /** Thirty-six octets encode as four runs of nine. */
  lemma NilQuarters(b: seq<byte>)
    requires |b| == 36
    ensures Base64Encode(b) == (Base64Encode(b[0..9]) + Base64Encode(b[9..18])) + (Base64Encode(b[18..27]) + Base64Encode(b[27..36]))
  {
    var q1, q2, q3, q4 := b[0..9], b[9..18], b[18..27], b[27..36];
    assert b == (q1 + q2) + (q3 + q4);
    Base64EncodeConcat(q1 + q2, q3 + q4);
    Base64EncodeConcat(q1, q2);
    Base64EncodeConcat(q3, q4);
  }

  /** The four runs of the nil link, joined. */
  lemma NilJoin(r1: string, r2: string, r3: string, r4: string)
    requires r1 == "MDAwMDAwMDAt" && r2 == "MDAwMC0wMDAw" && r3 == "LTAwMDAtMDAw" && r4 == "MDAwMDAwMDAw"
    ensures (r1 + r2) + (r3 + r4) == "MDAwMDAwMDAtMDAwMC0wMDAwLTAwMDAtMDAwMDAwMDAwMDAw"
  {
    assert r1 + r2 == "MDAwMDAwMDAtMDAwMC0wMDAw";
    assert r3 + r4 == "LTAwMDAtMDAwMDAwMDAwMDAw";
  }

  /** The twelve characters that encode nine octets of the nil id's text from offset `k`. */
  function NilRunText(k: nat): string {
    if k == 0 then "MDAwMDAwMDAt"
    else if k == 9 then "MDAwMC0wMDAw"
    else if k == 18 then "LTAwMDAtMDAw"
    else "MDAwMDAwMDAw"
  }

  /** Nine octets of the nil id's text, from a run boundary `k`, encode to `NilRunText(k)`. */
  lemma NilRun(x: seq<byte>, k: nat, r: string)
    requires k == 0 || k == 9 || k == 18 || k == 27
    requires |x| == 9 && forall j :: 0 <= j < 9 ==> x[j] == NilTextByte(k + j)
    requires r == NilRunText(k)
    ensures Base64Encode(x) == r
  {
    Base64Nine(x);
    assert x[0] == NilTextByte(k) && x[1] == NilTextByte(k + 1) && x[2] == NilTextByte(k + 2);
    assert x[3] == NilTextByte(k + 3) && x[4] == NilTextByte(k + 4) && x[5] == NilTextByte(k + 5);
    assert x[6] == NilTextByte(k + 6) && x[7] == NilTextByte(k + 7) && x[8] == NilTextByte(k + 8);
    NilRunJoin(k, EncodeGroup(x[0], x[1], x[2]), EncodeGroup(x[3], x[4], x[5]), EncodeGroup(x[6], x[7], x[8]));
  }

  /** The three groups of a run of the nil id's text, joined. */
  lemma NilRunJoin(k: nat, g0: string, g1: string, g2: string)
    requires k == 0 || k == 9 || k == 18 || k == 27
    requires g0 == EncodeGroup(NilTextByte(k), NilTextByte(k + 1), NilTextByte(k + 2))
    requires g1 == EncodeGroup(NilTextByte(k + 3), NilTextByte(k + 4), NilTextByte(k + 5))
    requires g2 == EncodeGroup(NilTextByte(k + 6), NilTextByte(k + 7), NilTextByte(k + 8))
    ensures g0 + (g1 + g2) == NilRunText(k)
  {
    if k == 0 {
      GroupZeros();
      GroupZeroZeroHyphen();
      assert "MDAw" + ("MDAw" + "MDAt") == NilRunText(k);
    } else if k == 9 {
      GroupZeros();
      GroupZeroHyphenZero();
      assert "MDAw" + ("MC0w" + "MDAw") == NilRunText(k);
    } else if k == 18 {
      GroupHyphenZeroZero();
      GroupZeroZeroHyphen();
      GroupZeros();
      assert "LTAw" + ("MDAt" + "MDAw") == NilRunText(k);
    } else {
      GroupZeros();
      assert "MDAw" + ("MDAw" + "MDAw") == NilRunText(k);
    }
  }

  /** `000` encodes as `MDAw`. */
  lemma GroupZeros()
    ensures EncodeGroup(48, 48, 48) == "MDAw"
  {
    assert 48 / 4 == 12 && (48 % 4) * 16 + 48 / 16 == 3 && (48 % 16) * 4 + 48 / 64 == 0 && 48 % 64 == 48;
  }

  /** `00-` encodes as `MDAt`. */
  lemma GroupZeroZeroHyphen()
    ensures EncodeGroup(48, 48, 45) == "MDAt"
  {
    assert 48 / 4 == 12 && (48 % 4) * 16 + 48 / 16 == 3 && (48 % 16) * 4 + 45 / 64 == 0 && 45 % 64 == 45;
  }

  /** `-00` encodes as `LTAw`. */
  lemma GroupHyphenZeroZero()
    ensures EncodeGroup(45, 48, 48) == "LTAw"
  {
    assert 45 / 4 == 11 && (45 % 4) * 16 + 48 / 16 == 19 && (48 % 16) * 4 + 48 / 64 == 0 && 48 % 64 == 48;
  }

  /** `0-0` encodes as `MC0w`. */
  lemma GroupZeroHyphenZero()
    ensures EncodeGroup(48, 45, 48) == "MC0w"
  {
    assert 48 / 4 == 12 && (48 % 4) * 16 + 45 / 16 == 2 && (45 % 16) * 4 + 48 / 64 == 52 && 48 % 64 == 48;
  }

  // ---------------------------------------------------------------------
  // Payloads
  // ---------------------------------------------------------------------

  /** The text that is signed: `fmt.Sprintf("%d_%s_%s", counter, data, link)`. */
  function Payload(counter: nat, data: string, link: string): string {
    Decimal(counter) + "_" + data + "_" + link
  }

  /** The position of the first `_` in `s`, if any. */
  function FirstUnderscore(s: string): (r: Option<nat>)
    ensures r.Some? ==> r.value < |s| && s[r.value] == '_' && '_' !in s[..r.value]
    ensures r.None? ==> '_' !in s
  {
    if |s| == 0 then None
    else if s[0] == '_' then Some(0)
    else match FirstUnderscore(s[1..])
      case None => None
      case Some(k) => assert s[..k + 1] == [s[0]] + s[1..][..k]; Some(k + 1)
  }

  /** The position of the last `_` in `s`, if any. */
  function LastUnderscore(s: string): (r: Option<nat>)
    ensures r.Some? ==> r.value < |s| && s[r.value] == '_' && '_' !in s[r.value + 1..]
    ensures r.None? ==> '_' !in s
  {
    if |s| == 0 then None
    else if s[|s| - 1] == '_' then Some(|s| - 1)
    else match LastUnderscore(s[..|s| - 1])
      case None => None
      case Some(k) => assert s[k + 1..] == s[..|s| - 1][k + 1..] + [s[|s| - 1]]; Some(k)
  }

  /** An `_` with none before it is the first one. */
  lemma {:induction false} FirstUnderscoreAt(s: string, i: nat)
    requires i < |s| && s[i] == '_' && '_' !in s[..i]
    ensures FirstUnderscore(s) == Some(i)
  {
    if i > 0 {
      assert s[0] == s[..i][0];
      assert s[1..][..i - 1] == s[..i][1..];
      FirstUnderscoreAt(s[1..], i - 1);
    }
  }

  /** An `_` with none after it is the last one. */
  lemma {:induction false} LastUnderscoreAt(s: string, j: nat)
    requires j < |s| && s[j] == '_' && '_' !in s[j + 1..]
    ensures LastUnderscore(s) == Some(j)
    decreases |s|
  {
    if j < |s| - 1 {
      assert s[|s| - 1] == s[j + 1..][|s| - j - 2];
      assert s[..|s| - 1][j + 1..] == s[j + 1..|s| - 1];
      LastUnderscoreAt(s[..|s| - 1], j);
    }
  }

  /**
   * Splits a payload into counter, data and link: the counter runs up to the
   * first `_`, the link starts after the last `_`, the data is what lies
   * between. `None` when the text has no such shape.
   */
  function ParsePayload(p: string): (r: Option<(nat, string, string)>)
  {
    match (FirstUnderscore(p), LastUnderscore(p))
    case (Some(i), Some(j)) =>
      if i < j && i > 0 && forall k :: 0 <= k < i ==> IsDecimalDigit(p[k]) then
        Some((ParseDecimal(p[..i]), p[i + 1..j], p[j + 1..]))
      else None
    case _ => None
  }

  /**
   * The payload encoding is unambiguous although the data may contain `_`:
   * the decimal counter and a base64 link never do, so the counter, the
   * data and the link are all recovered from the signed text.
   */
  lemma PayloadRoundTrip(counter: nat, data: string, link: string)
    requires '_' !in link
    ensures ParsePayload(Payload(counter, data, link)) == Some((counter, data, link))
  {
    var d := Decimal(counter);
    var p := Payload(counter, data, link);
    var i, j := |d|, |d| + 1 + |data|;
    assert p[..i] == d && p[i] == '_';
    assert p[j] == '_' && p[j + 1..] == link && p[i + 1..j] == data;
    assert '_' !in d;
    FirstUnderscoreAt(p, i);
    LastUnderscoreAt(p, j);
    DecimalRoundTrip(counter);
  }

  /** Distinct (counter, data, link) triples give distinct payloads, when links avoid `_`. */
  lemma PayloadInjective(c1: nat, d1: string, l1: string, c2: nat, d2: string, l2: string)
    requires '_' !in l1 && '_' !in l2
    requires Payload(c1, d1, l1) == Payload(c2, d2, l2)
    ensures c1 == c2 && d1 == d2 && l1 == l2
  {
    PayloadRoundTrip(c1, d1, l1);
    PayloadRoundTrip(c2, d2, l2);
  }

  /**
   * `p` begins with the decimal counter and `_`, and ends with `_` and the
   * link, without the two separators overlapping.
   */
  predicate LinksTo(p: string, counter: nat, link: string) {
    var d := Decimal(counter);
    && |d| + |link| + 2 <= |p|
    && p[..|d| + 1] == d + "_"
    && p[|p| - |link| - 1..] == "_" + link
  }

  /** Every payload links its counter to its link, whatever the data. */
  lemma PayloadLinks(counter: nat, data: string, link: string)
    ensures LinksTo(Payload(counter, data, link), counter, link)
  {
    var d := Decimal(counter);
    var p := Payload(counter, data, link);
    assert p[..|d| + 1] == d + "_";
    assert p[|p| - |link| - 1..] == "_" + link;
  }

  /** A text links `counter` to `link` exactly when it is the payload for some data. */
  lemma LinksToIffPayload(p: string, counter: nat, link: string)
    ensures LinksTo(p, counter, link) <==> exists data :: p == Payload(counter, data, link)
  {
    var d := Decimal(counter);
    if LinksTo(p, counter, link) {
      var data := p[|d| + 1..|p| - |link| - 1];
      assert p == p[..|d| + 1] + data + p[|p| - |link| - 1..];
      assert p == Payload(counter, data, link);
    }
    if exists data :: p == Payload(counter, data, link) {
      var data :| p == Payload(counter, data, link);
      PayloadLinks(counter, data, link);
    }
  }

  /** The link entry `i` of a log must embed: the base case for entry 0, the previous signature after it. */
  function LinkBefore(id: Uuid, log: seq<SignedData>, i: nat): string
    requires i <= |log|
  {
    if i == 0 then BaseLink(id) else log[i - 1].signature
  }

  /**
   * The chain property of a device's log: entry `i`'s payload starts with
   * `i` and ends with `_` followed by entry `i-1`'s signature, and entry 0's
   * ends with `_` followed by base64 of the device id.
   */
  ghost predicate ChainValid(id: Uuid, log: seq<SignedData>) {
    forall i :: 0 <= i < |log| ==> LinksTo(log[i].originalData, i, LinkBefore(id, log, i))
  }

  /** The entry `SignTransaction` appends for signer output `sig` over `payload`. */
  function EntryFor(sig: seq<byte>, payload: string): (e: SignedData)
    ensures '_' !in e.signature && e.originalData == payload
  {
    Base64Alphabet(sig);
    SignedData(Base64Encode(sig), payload)
  }

  /**
   * Appending the entry signed over `Payload(|log|, data, link)`, where the
   * link is the base case for an empty log and the last signature
   * otherwise, keeps the chain valid.
   */
  lemma ChainExtend(id: Uuid, log: seq<SignedData>, data: string, sig: seq<byte>)
    requires ChainValid(id, log)
    ensures ChainValid(id, log + [EntryFor(sig, Payload(|log|, data, LinkBefore(id, log, |log|)))])
  {
    var link := LinkBefore(id, log, |log|);
    var log' := log + [EntryFor(sig, Payload(|log|, data, link))];
    forall i | 0 <= i < |log'|
      ensures LinksTo(log'[i].originalData, i, LinkBefore(id, log', i))
    {
      if i < |log| {
        assert log'[i] == log[i];
        assert LinkBefore(id, log', i) == LinkBefore(id, log, i);
      } else {
        PayloadLinks(|log|, data, link);
      }
    }
  }

  /** In a valid chain, entry `i > 0` ends with `_` and entry `i-1`'s signature. */
  lemma ChainedToPrevious(id: Uuid, log: seq<SignedData>, i: nat)
    requires ChainValid(id, log) && 0 < i < |log|
    ensures var p, s := log[i].originalData, log[i - 1].signature;
      |s| + 1 <= |p| && p[|p| - |s| - 1..] == "_" + s
  {
  }

  /** The first entry of a valid chain ends with `_` and base64 of the device id. */
  lemma ChainedToBase(id: Uuid, log: seq<SignedData>)
    requires ChainValid(id, log) && 0 < |log|
    ensures var p, b := log[0].originalData, BaseLink(id);
      |b| + 1 <= |p| && p[|p| - |b| - 1..] == "_" + b
  {
  }
}
