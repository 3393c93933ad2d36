/**
 * The domain vocabulary of the signing service: algorithm tags, key
 * pairs, devices, signed data, errors, and the collaborators the services
 * call but whose code is not part of this model (key-pair generation,
 * signer creation, signing).
 */
module Domain {

  import opened Options
  import opened Encoding
  import opened Uuids

  /** Go's `Algorithm` is a named string type: any text is a tag. */
  type Algorithm = string

  const AlgorithmECC: Algorithm := "ECC"
  const AlgorithmRSA: Algorithm := "RSA"

  /** `Algorithm.String`: the tag's own text, so distinct tags print differently. */
  function AlgorithmString(a: Algorithm): (s: string)
    ensures |s| == |a| && forall i :: 0 <= i < |s| ==> s[i] == a[i]
  {
    a
  }

  /**
   * Key material. Go's `KeyPair` is an interface that only the crypto code
   * looks inside; here a key pair is a handle that the generator hands out
   * and the signer creator accepts.
   */
  datatype KeyPair = KeyPair(handle: nat)

  /** A signing device; `deviceLabel` is Go's optional `Label *string` (`label` is a Dafny keyword). */
  datatype Device = Device(
    id: Uuid,
    signatureCounter: nat,
    keyPair: KeyPair,
    algorithm: Algorithm,
    deviceLabel: Option<string>)
  {
    /** The same device with its counter advanced by one. */
    function Incremented(): (d: Device)
      ensures d.signatureCounter == signatureCounter + 1
      ensures d.id == id && d.keyPair == keyPair && d.algorithm == algorithm && d.deviceLabel == deviceLabel
    {
      this.(signatureCounter := signatureCounter + 1)
    }
  }

  /** One chain entry: the base64 signature and the exact payload it signs. */
  datatype SignedData = SignedData(signature: string, originalData: string)

  /**
   * Errors. `Wrapped` is `fmt.Errorf("<context>: %w", cause)`; `External`
   * stands for an error returned by a collaborator outside the model;
   * `NilDereference` is the runtime panic of dereferencing a missing map
   * entry.
   */
  datatype Error =
    | DeviceNotFound
    | NoSignaturesFound
    | External(message: string)
    | Wrapped(context: string, cause: Error)
    | NilDereference

  /** The text `err.Error()` would print. */
  function Message(e: Error): string {
    match e
    case DeviceNotFound => "device not found"
    case NoSignaturesFound => "no signatures found"
    case External(m) => m
    case Wrapped(c, cause) => c + ": " + Message(cause)
    case NilDereference => "runtime error: invalid memory address or nil pointer dereference"
  }

  /** Go's `(value, error)` pair: exactly one of the two is meaningful. */
  datatype Result<+T> = Ok(value: T) | Err(error: Error)

  /**
   * A capability bound to one key pair: signs the bytes of a string. The
   * second argument stands for the random octets the signature algorithm
   * draws, so two calls over the same text may give different signatures.
   */
  datatype Signer = Signer(sign: (string, nat) -> Result<seq<byte>>)

  /** `SignerCreator`: a signer for a key pair, or an error. */
  datatype SignerCreator = SignerCreator(createSigner: KeyPair -> Result<Signer>)

  /**
   * `KeyPairGenerator`: a key pair for an algorithm tag, or an error. The
   * second argument stands for the random octets key generation draws, so
   * each call may give a different key pair or fail on its own.
   */
  datatype KeyPairGenerator = KeyPairGenerator(generateKeyPair: (Algorithm, nat) -> Result<KeyPair>)
}
