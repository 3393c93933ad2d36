/**
 * The signature service: `SignTransaction` extends a device's chain of
 * signatures by one entry, and `GetSignatures` lists the chain.
 *
 * The outcome of the transaction body on a stored record is specified by
 * the functions `ChainLink` and `SignOutcome`; the method is proved to
 * produce exactly that outcome and store change, and the lemmas below say
 * what the outcome means: the chain invariant is kept, failures change
 * nothing, the base case ignores the log.
 */
module Signatures {

  import opened Options
  import opened Encoding
  import opened Uuids
  import opened Domain
  import opened Chain
  import opened Persistence
  import opened Devices

  // ---------------------------------------------------------------------
  // Specification of the transaction body
  // ---------------------------------------------------------------------

  /**
   * The link the next entry embeds: base64 of the device id while the
   * counter is 0, otherwise the signature of the entry the store reports as
   * the last one (an error when it has none).
   */
  function ChainLink(rec: Record): Result<string> {
    if rec.device.signatureCounter == 0 then Ok(BaseLink(rec.device.id))
    else if |rec.signatures| == 0 then Err(Wrapped("failed to retrieve last signature", NoSignaturesFound))
    else Ok(rec.signatures[LatestIndex(rec.signatures)].signedData.signature)
  }

  /**
   * What the transaction body yields for a stored record, when signing
   * draws the random octets `entropy`: the entry to append, or the error of
   * the first step that failed, with its context.
   */
  function SignOutcome(rec: Record, data: string, creator: SignerCreator, entropy: nat): Result<SignedData> {
    match ChainLink(rec)
    case Err(e) => Err(e)
    case Ok(link) =>
      match creator.createSigner(rec.device.keyPair)
      case Err(e) => Err(Wrapped("failed to create signer", e))
      case Ok(signer) =>
        var payload := Payload(rec.device.signatureCounter, data, link);
        match signer.sign(payload, entropy)
        case Err(e) => Err(Wrapped("failed to sign data", e))
        case Ok(sig) => Ok(EntryFor(sig, payload))
  }

  /** The record after a successful transaction: `entry` appended, stamped `now`, counter advanced. */
  function Signed(rec: Record, entry: SignedData, now: nat): (r: Record)
    ensures r.device == rec.device.Incremented()
    ensures r.signatures == rec.signatures + [StoredSignature(entry, now)]
  {
    Record(rec.device.Incremented(), rec.signatures + [StoredSignature(entry, now)])
  }

  // ---------------------------------------------------------------------
  // The service
  // ---------------------------------------------------------------------

  class SignatureService {
    const deviceSvc: DeviceService
    const signerCreator: SignerCreator
    const persister: InMemory

    /** The device service and the signature service share one store. */
    ghost predicate Valid()
      reads this, deviceSvc, persister
    {
      deviceSvc.persister == persister && persister.Valid()
    }

    constructor(deviceSvc: DeviceService, signerCreator: SignerCreator, persister: InMemory)
      ensures this.deviceSvc == deviceSvc && this.signerCreator == signerCreator && this.persister == persister
    {
      this.deviceSvc := deviceSvc;
      this.signerCreator := signerCreator;
      this.persister := persister;
    }

    /**
     * Signs `data` with the device's key over `"<counter>_<data>_<link>"`,
     * drawing the random octets `entropy`, saves the result stamped `now`,
     * then advances the counter: the store sees a save and then an
     * increment. Every failure inside the transaction comes back under
     * "failed to sign transaction" with the store unchanged and no call
     * made on it; an unknown id fails before the transaction body runs.
     */
    method SignTransaction(id: Uuid, data: string, now: nat, entropy: nat) returns (r: Result<SignedData>)
      requires Valid()
      modifies persister
      ensures Valid()
      ensures id !in old(persister.storage) ==>
        && r == Err(NilDereference)
        && persister.storage == old(persister.storage)
        && persister.calls == old(persister.calls)
      ensures id in old(persister.storage) ==>
        match SignOutcome(old(persister.storage)[id], data, signerCreator, entropy)
        case Err(e) =>
          && r == Err(Wrapped("failed to sign transaction", e))
          && persister.storage == old(persister.storage)
          && persister.calls == old(persister.calls)
        case Ok(entry) =>
          && r == Ok(entry)
          && persister.storage == old(persister.storage)[id := Signed(old(persister.storage)[id], entry, now)]
          && persister.calls == old(persister.calls) + [Save(id, entry, now), Increment(id)]
    {
      var guard := persister.RunTransaction(id);
      if guard.Some? {
        return Err(guard.value);
      }
      var outcome := TransactionBody(id, data, now, entropy);
      match outcome
      case Err(e) =>
        return Err(Wrapped("failed to sign transaction", e));
      case Ok(signedData) =>
        return Ok(signedData);
    }

    /**
     * The link step of the transaction: base64 of the device id while the
     * counter is 0, otherwise the signature `GetLastSignature` reports.
     */
    method PickLink(id: Uuid, device: Device) returns (r: Result<string>)
      requires id in persister.storage && device == persister.storage[id].device
      ensures r == ChainLink(persister.storage[id])
    {
      var link := BaseLink(device.id);
      if device.signatureCounter != 0 {
        var last := persister.GetLastSignature(id);
        match last
        case Err(e) =>
          return Err(Wrapped("failed to retrieve last signature", e));
        case Ok(sd) =>
          link := sd.signature;
      }
      r := Ok(link);
    }

    /**
     * The closure `SignTransaction` runs inside the transaction: look up the
     * device, pick the link, sign, save, increment, stopping at the first
     * failure. The store changes only once signing has succeeded, and then
     * by a save followed by an increment.
     */
    method TransactionBody(id: Uuid, data: string, now: nat, entropy: nat) returns (r: Result<SignedData>)
      requires Valid() && id in persister.storage
      modifies persister
      ensures Valid()
      ensures match SignOutcome(old(persister.storage)[id], data, signerCreator, entropy)
        case Err(e) =>
          && r == Err(e)
          && persister.storage == old(persister.storage)
          && persister.calls == old(persister.calls)
        case Ok(entry) =>
          && r == Ok(entry)
          && persister.storage == old(persister.storage)[id := Signed(old(persister.storage)[id], entry, now)]
          && persister.calls == old(persister.calls) + [Save(id, entry, now), Increment(id)]
    {
      ghost var rec := persister.storage[id];

      var device: Device;
      match deviceSvc.GetDevice(id)
      case Err(e) =>
        return Err(e);
      case Ok(d) =>
        device := d;

      var link: string;
      var picked := PickLink(id, device);
      match picked
      case Err(e) =>
        return Err(e);
      case Ok(l) =>
        link := l;

      var signer: Signer;
      match signerCreator.createSigner(device.keyPair)
      case Err(e) =>
        return Err(Wrapped("failed to create signer", e));
      case Ok(s) =>
        signer := s;

      var payload := Payload(device.signatureCounter, data, link);
      var signature: seq<byte>;
      match signer.sign(payload, entropy)
      case Err(e) =>
        return Err(Wrapped("failed to sign data", e));
      case Ok(sig) =>
        signature := sig;

      var signedData := SignedData(Base64Encode(signature), payload);
      assert SignOutcome(rec, data, signerCreator, entropy) == Ok(signedData);

      var err := persister.SaveSignature(id, signedData, now);
      match err
      case Some(e) =>
        return Err(Wrapped("failed to save signature", e));
      case None =>

      err := deviceSvc.IncrementSignatureCounter(id);
      match err
      case Some(e) =>
        return Err(Wrapped("failed to increment signature counter", e));
      case None =>

      r := Ok(signedData);
    }

    /** The store's list of signed data, or its error under "failed to retrieve signatures". */
    method GetSignatures(id: Uuid) returns (r: Result<seq<SignedData>>)
      ensures id !in persister.storage ==> r == Err(Wrapped("failed to retrieve signatures", DeviceNotFound))
      ensures id in persister.storage ==> r == Ok(Log(persister.storage[id].signatures))
    {
      var signatures := persister.GetSignatures(id);
      match signatures
      case Err(e) =>
        return Err(Wrapped("failed to retrieve signatures", e));
      case Ok(s) =>
        return Ok(s);
    }
  }

  // ---------------------------------------------------------------------
  // What the outcome means
  // ---------------------------------------------------------------------

  /**
   * The chain invariant of a device record: the counter equals the number of
   * entries, the stamps strictly increase, each entry's payload starts with
   * its own index and ends with the link it was chained to, and no
   * signature contains `_`.
   */
  ghost predicate ChainInvariant(rec: Record) {
    && rec.device.signatureCounter == |rec.signatures|
    && StrictlyIncreasing(rec.signatures)
    && ChainValid(rec.device.id, Log(rec.signatures))
    && (forall i :: 0 <= i < |rec.signatures| ==> '_' !in rec.signatures[i].signedData.signature)
  }

  /** A device as `CreateDevice` stores it starts a valid, empty chain. */
  lemma FreshRecordChained(device: Device)
    requires device.signatureCounter == 0
    ensures ChainInvariant(Record(device, []))
  {
    assert Log([]) == [];
  }

  /** In a record satisfying the invariant, the link is the base case or the most recently appended signature. */
  lemma {:induction false} ChainLinkIsLinkBefore(rec: Record)
    requires ChainInvariant(rec)
    ensures ChainLink(rec) == Ok(LinkBefore(rec.device.id, Log(rec.signatures), |rec.signatures|))
  {
    if |rec.signatures| > 0 {
      LatestIsLastWhenIncreasing(rec.signatures);
    }
  }

  /**
   * The chain theorem: a successful transaction on a record satisfying the
   * invariant, stamped later than every entry it has, leaves a record that
   * satisfies it again.
   */
  lemma {:induction false} SignKeepsChain(rec: Record, data: string, creator: SignerCreator, entropy: nat, now: nat)
    requires ChainInvariant(rec)
    requires forall i :: 0 <= i < |rec.signatures| ==> rec.signatures[i].createdAt < now
    ensures SignOutcome(rec, data, creator, entropy).Ok? ==>
      ChainInvariant(Signed(rec, SignOutcome(rec, data, creator, entropy).value, now))
  {
    if SignOutcome(rec, data, creator, entropy).Ok? {
      var sigs, id := rec.signatures, rec.device.id;
      var log := Log(sigs);
      var link := LinkBefore(id, log, |log|);
      ChainLinkIsLinkBefore(rec);
      var signer := creator.createSigner(rec.device.keyPair).value;
      var sig := signer.sign(Payload(|log|, data, link), entropy).value;
      var entry := SignOutcome(rec, data, creator, entropy).value;
      assert entry == EntryFor(sig, Payload(|log|, data, link));
      ChainExtend(id, log, data, sig);
      var next := Signed(rec, entry, now);
      LogAppend(sigs, StoredSignature(entry, now));
      assert Log(next.signatures) == log + [entry];
      AppendLaterKeepsIncreasing(sigs, StoredSignature(entry, now));
      AppendKeepsLinkFree(sigs, StoredSignature(entry, now));
    }
  }

  /** Appending an entry whose signature has no `_` keeps every signature free of `_`. */
  lemma AppendKeepsLinkFree(sigs: seq<StoredSignature>, s: StoredSignature)
    requires forall i :: 0 <= i < |sigs| ==> '_' !in sigs[i].signedData.signature
    requires '_' !in s.signedData.signature
    ensures forall i :: 0 <= i < |sigs + [s]| ==> '_' !in (sigs + [s])[i].signedData.signature
  {
    forall i | 0 <= i < |sigs + [s]|
      ensures '_' !in (sigs + [s])[i].signedData.signature
    {
      if i < |sigs| {
        assert (sigs + [s])[i] == sigs[i];
      }
    }
  }

  /**
   * While the counter is 0 the link does not depend on the stored entries:
   * `GetLastSignature` is not consulted.
   */
  lemma BaseCaseIgnoresLog(device: Device, s1: seq<StoredSignature>, s2: seq<StoredSignature>, data: string, creator: SignerCreator, entropy: nat)
    requires device.signatureCounter == 0
    ensures ChainLink(Record(device, s1)) == Ok(BaseLink(device.id))
    ensures SignOutcome(Record(device, s1), data, creator, entropy) == SignOutcome(Record(device, s2), data, creator, entropy)
  {
  }

  /**
   * Once the counter is non-zero, the link is exactly the signature of the
   * entry the store reports as last, and a device with no entries fails
   * with "failed to retrieve last signature: no signatures found".
   */
  lemma NonZeroLink(rec: Record)
    requires rec.device.signatureCounter != 0
    ensures |rec.signatures| == 0 ==>
      ChainLink(rec).Err? && Message(ChainLink(rec).error) == "failed to retrieve last signature: no signatures found"
    ensures |rec.signatures| > 0 ==> ChainLink(rec) == Ok(rec.signatures[LatestIndex(rec.signatures)].signedData.signature)
  {
  }

  /**
   * A successful outcome signs exactly the payload it returns, and the
   * payload gives back the counter, the caller's data and the link.
   */
  lemma OutcomePayload(rec: Record, data: string, creator: SignerCreator, entropy: nat)
    ensures SignOutcome(rec, data, creator, entropy).Ok? ==> ChainLink(rec).Ok?
    ensures SignOutcome(rec, data, creator, entropy).Ok? ==>
      var entry, link := SignOutcome(rec, data, creator, entropy).value, ChainLink(rec).value;
      && entry.originalData == Payload(rec.device.signatureCounter, data, link)
      && '_' !in entry.signature
      && creator.createSigner(rec.device.keyPair).Ok?
      && (var signer := creator.createSigner(rec.device.keyPair).value;
          signer.sign(entry.originalData, entropy).Ok?
          && entry.signature == Base64Encode(signer.sign(entry.originalData, entropy).value))
  {
  }

  /**
   * In a chained record the payload of the next entry parses back into the
   * counter, the data and the link: the invariant keeps `_` out of the link.
   */
  lemma {:induction false} OutcomePayloadParses(rec: Record, data: string, creator: SignerCreator, entropy: nat)
    requires ChainInvariant(rec)
    ensures SignOutcome(rec, data, creator, entropy).Ok? ==>
      ParsePayload(SignOutcome(rec, data, creator, entropy).value.originalData) == Some((|rec.signatures|, data, ChainLink(rec).value))
  {
    if SignOutcome(rec, data, creator, entropy).Ok? {
      ChainLinkIsLinkBefore(rec);
      var link := ChainLink(rec).value;
      if |rec.signatures| == 0 {
        BaseLinkShape(rec.device.id);
      } else {
        assert link == rec.signatures[|rec.signatures| - 1].signedData.signature;
      }
      PayloadRoundTrip(|rec.signatures|, data, link);
    }
  }

  /** The payload of counter 0 over `data`: the text `0_data_` and the link. */
  lemma ZeroCounterPayload(link: string)
    ensures Payload(0, "data", link) == "0_data_" + link
  {
    assert Decimal(0) == "0";
    assert "0" + "_" + "data" + "_" == "0_data_";
  }

  /**
   * The success scenario: a fresh device with the nil id, a signer that
   * returns the octets of `signed_data`, and data `data` give signature
   * `c2lnbmVkX2RhdGE=` over `0_data_` followed by base64 of the nil id's text.
   */
  lemma NilDeviceScenario(keyPair: KeyPair, creator: SignerCreator, signer: Signer, entropy: nat, out: seq<byte>)
    requires out == [115, 105, 103, 110, 101, 100, 95, 100, 97, 116, 97]
    ensures (creator.createSigner(keyPair) == Ok(signer)
        && signer.sign("0_data_MDAwMDAwMDAtMDAwMC0wMDAwLTAwMDAtMDAwMDAwMDAwMDAw", entropy) == Ok(out)) ==>
      SignOutcome(Record(Device(NilUuid, 0, keyPair, AlgorithmECC, None), []), "data", creator, entropy)
        == Ok(SignedData("c2lnbmVkX2RhdGE=", "0_data_MDAwMDAwMDAtMDAwMC0wMDAwLTAwMDAtMDAwMDAwMDAwMDAw"))
  {
    NilBaseLink();
    ZeroCounterPayload(BaseLink(NilUuid));
    NilPayloadText(BaseLink(NilUuid));
    SignedDataEncoding(out);
  }

  // ---------------------------------------------------------------------
  // Splitting the scenario's payload literal for the solver: the lemmas below
  // only join `0_data_` and the two halves of the nil base link step by step.
  // ---------------------------------------------------------------------

  /** The payload text of the success scenario, joined in two halves of the link. */
  lemma NilPayloadText(link: string)
    requires link == "MDAwMDAwMDAtMDAwMC0wMDAwLTAwMDAtMDAwMDAwMDAwMDAw"
    ensures "0_data_" + link == "0_data_MDAwMDAwMDAtMDAwMC0wMDAwLTAwMDAtMDAwMDAwMDAwMDAw"
  {
    var p, a, b := "0_data_", "MDAwMDAwMDAtMDAwMC0wMDAw", "LTAwMDAtMDAwMDAwMDAwMDAw";
    NilLinkHalves(link, a, b);
    assert p + link == (p + a) + b;
    NilPayloadFront(p, a);
    NilPayloadBack(p + a, b);
  }

  /** The nil base link is its two 24-character halves. */
  lemma NilLinkHalves(link: string, a: string, b: string)
    requires link == "MDAwMDAwMDAtMDAwMC0wMDAwLTAwMDAtMDAwMDAwMDAwMDAw"
    requires a == "MDAwMDAwMDAtMDAwMC0wMDAw" && b == "LTAwMDAtMDAwMDAwMDAwMDAw"
    ensures link == a + b
  {
  }

  /** `0_data_` joined with the first half of the link. */
  lemma NilPayloadFront(p: string, a: string)
    requires p == "0_data_" && a == "MDAwMDAwMDAtMDAwMC0wMDAw"
    ensures p + a == "0_data_MDAwMDAwMDAtMDAwMC0wMDAw"
  {
  }

  /** The front joined with the second half of the link. */
  lemma NilPayloadBack(x: string, b: string)
    requires x == "0_data_MDAwMDAwMDAtMDAwMC0wMDAw" && b == "LTAwMDAtMDAwMDAwMDAwMDAw"
    ensures x + b == "0_data_MDAwMDAwMDAtMDAwMC0wMDAwLTAwMDAtMDAwMDAwMDAwMDAw"
  {
  }
}
