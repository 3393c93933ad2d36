# Signing service: the per-device signature chain in Dafny

This project models the core of a Go signing service. The service creates
signature devices and signs transaction data with them. Each device keeps a
chain of signatures: every signed payload embeds the previous signature, and
the first one embeds base64 of the device id. The model covers four parts:

- the signature service (`internal/domain/signature.go`);
- the in-memory store it runs on (`internal/persistence/inmemory.go`);
- the device service (`internal/domain/device.go`);
- the first-write-wins response writer of the HTTP middleware (`internal/api/middleware.go`).

Modules:

| file | module | what it holds |
|---|---|---|
| `options.dfy` | `Options` | `Option` |
| `encoding.dfy` | `Encoding` | base64 with `=` padding (section 4 of RFC 4648), ASCII octets, `%d` decimal rendering, with decoders and round-trip lemmas |
| `uuid.dfy` | `Uuids` | 16-octet ids and their 8-4-4-4-12 lower-case text form (section 3 of RFC 4122) |
| `domain.dfy` | `Domain` | algorithm tags, key pairs, devices, signed data, errors, and the collaborators outside the model (key generator, signer creator, signer) as function values |
| `chain.dfy` | `Chain` | the base link, the payload `"<counter>_<data>_<link>"`, its parser, and the chain property of a log |
| `persistence.dfy` | `Persistence` | the store as class `InMemory` over a map of records, and the "last signature" selection by timestamp |
| `devices.dfy` | `Devices` | class `DeviceService` |
| `signatures.dfy` | `Signatures` | class `SignatureService`, the specification of one transaction (`ChainLink`, `SignOutcome`, `Signed`), and the chain theorem |
| `middleware.dfy` | `Middleware` | class `ResponseWriter` and the pure latch it implements |

Go's `(value, error)` pairs become `Result<T>` (`Ok` or `Err`). The zero value
Go returns beside an error is not represented. Errors are a datatype:
`Wrapped(context, cause)` is `fmt.Errorf("<context>: %w", cause)`, and
`Message` renders the text Go would print.

The services hold the store directly. `SignatureService.Valid` requires that
the device service and the signature service share one store, as the
application wiring does.

The main result is `Signatures.SignKeepsChain` with `Signatures.FreshRecordChained`.
Take a device record where the counter equals the number of entries, the
stamps strictly increase, each entry is chained to its predecessor (or to
the base link), and no stored signature contains `_`. A successful
transaction stamped later than every entry leaves a record with the same
four properties. `SignTransaction` is proved to produce exactly the outcome
and store change that `SignOutcome` and `Signed` describe.

The store keeps a ghost trace of the state-changing calls made on it
(`Persistence.StoreCall`), so the transaction's contract also states the
order of its store calls: one save, then one increment, and nothing after.

## Model

| member | source | states |
|---|---|---|
| Encoding.Base64Encode | internal/domain/signature.go:85 | `base64.StdEncoding`: each group of three octets becomes four characters, and a final one or two octets are padded with `=`; its properties are the rows below |
| Encoding.Base64EncodeConcat | internal/domain/signature.go:60 | a prefix made of whole three-octet groups encodes on its own: the encoding of `a + b` is the encoding of `a` followed by that of `b` |
| Encoding.Digit | internal/domain/signature.go:85 | each 6-bit value maps to an alphabet character that decodes back to the same value |
| Encoding.Base64Length | internal/domain/signature.go:60 | the encoding has 4 characters per 3 octets, rounded up: `4 * ((n + 2) / 3)` |
| Encoding.Base64Alphabet | internal/domain/signature.go:85 | an encoding uses only the base64 alphabet and `=` |
| Encoding.Base64RoundTrip | internal/domain/signature.go:85 | decoding the encoding of any octet string gives it back |
| Encoding.Base64Injective | internal/domain/signature.go:85 | distinct octet strings have distinct encodings |
| Encoding.SignedDataEncoding | internal/domain/signature_test.go:111 | the octets of `signed_data` encode to `c2lnbmVkX2RhdGE=` |
| Encoding.AsciiBytes | internal/domain/signature.go:60 | an ASCII string becomes one octet per character, each equal to the character code |
| Encoding.Decimal | internal/domain/signature.go:76 | `%d` of a counter is a non-empty string of decimal digits |
| Encoding.DecimalRoundTrip | internal/domain/signature.go:76 | parsing the decimal rendering of a counter gives the counter back |
| Uuids.Hex | internal/domain/signature.go:60 | two lower-case hex digits per octet |
| Uuids.UuidString | internal/domain/signature.go:60 | the text form of an id is 36 characters |
| Uuids.UuidStringAscii | internal/domain/signature.go:60 | the text form of an id is ASCII, so `[]byte(id.String())` is one octet per character |
| Uuids.UuidStringShape | internal/domain/signature.go:60 | hyphens sit exactly at offsets 8, 13, 18 and 23, and every other character is a hex digit |
| Uuids.UuidRoundTrip | internal/domain/signature.go:60 | parsing the text form of an id gives the id back |
| Uuids.NilUuidString | internal/domain/signature_test.go:92 | the nil id renders as `00000000-0000-0000-0000-000000000000` |
| Uuids.NilTextBytes | internal/domain/signature_test.go:92 | the octets of the nil id's text are 36 ASCII codes: 45 (`-`) at offsets 8, 13, 18 and 23, and 48 (`0`) everywhere else |
| Chain.BaseLink | internal/domain/signature.go:60 | base64 of the ASCII octets of the id's text form; its properties are the rows below |
| Chain.BaseLinkInjective | internal/domain/signature.go:60 | distinct device ids have distinct base links |
| Chain.BaseLinkShape | internal/domain/signature.go:60 | the base link is 48 base64 characters and contains no `_` |
| Chain.NilBaseLink | internal/domain/signature_test.go:112 | the base link of the nil id is the literal `MDAwMDAwMDAtMDAwMC0wMDAwLTAwMDAtMDAwMDAwMDAwMDAw` |
| Chain.Payload | internal/domain/signature.go:76 | `fmt.Sprintf("%d_%s_%s")` of counter, data and link; its partner is the parser `ParsePayload` (rows below) |
| Chain.PayloadRoundTrip | internal/domain/signature.go:76 | when the link has no `_`, the payload parses back into its counter, data and link, whatever `_` the data holds |
| Chain.PayloadInjective | internal/domain/signature.go:76 | when links have no `_`, distinct (counter, data, link) triples give distinct payloads |
| Chain.PayloadLinks | internal/domain/signature.go:76 | every payload starts with the counter and `_`, and ends with `_` and the link |
| Chain.LinksToIffPayload | internal/domain/signature.go:76 | a text has that shape exactly when it is the payload for some data |
| Chain.EntryFor | internal/domain/signature.go:84-87 | the saved entry holds the base64 signer output, which has no `_`, and the exact payload |
| Chain.ChainExtend | internal/domain/signature.go:59-89 | appending the entry signed over `Payload(len, data, link)` keeps a valid chain valid; the link is the base link for an empty log, else the last signature |
| Chain.ChainedToPrevious | internal/domain/signature.go:61-76 | in a valid chain, entry `i > 0` ends with `_` and entry `i-1`'s signature |
| Chain.ChainedToBase | internal/domain/signature.go:60-76 | in a valid chain, entry 0 ends with `_` and base64 of the device id |
| Domain.AlgorithmString | internal/domain/device.go:16-18 | `Algorithm.String` is the tag's own text, character for character |
| Domain.Message | internal/domain/signature.go:64-103 | the text of an error: a wrapped error reads `<context>: ` followed by the text of its cause, as `fmt.Errorf("...: %w")` prints it |
| Domain.Device.Incremented | internal/domain/device.go:34 | the counter goes up by one and every other field stays |
| Persistence.Log | internal/persistence/inmemory.go:110-113 | the signed data of every entry, same length, in insertion order |
| Persistence.LogAppend | internal/persistence/inmemory.go:73-76 | appending an entry appends its signed data to the log |
| Persistence.LatestIndex | internal/persistence/inmemory.go:92-98 | the index the strict-`After` scan keeps, always within the list; characterised by the two rows below |
| Persistence.LatestIndexIsFirstMaximum | internal/persistence/inmemory.go:92-98 | the strict-`After` scan picks an entry with a maximal stamp, and every earlier entry has a strictly smaller one |
| Persistence.FirstMaximumUnique | internal/persistence/inmemory.go:92-98 | the first maximal entry is the only index with that property, so it is the scan's pick |
| Persistence.LatestIsLastIff | internal/persistence/inmemory.go:92-98 | the pick is the most recently appended entry exactly when its stamp is later than every other; on a tie an earlier entry wins |
| Persistence.LatestIsLastWhenIncreasing | internal/persistence/inmemory.go:92-98 | with strictly increasing stamps the pick is the most recently appended entry |
| Persistence.AppendLaterKeepsIncreasing | internal/persistence/inmemory.go:73-76 | appending an entry stamped later than every stored one keeps the stamps strictly increasing |
| Persistence.InMemory.constructor | internal/persistence/inmemory.go:31-35 | a new store is empty and no call has been made on it |
| Persistence.InMemory.CreateDevice | internal/persistence/inmemory.go:38-44 | stores the device under its id with no signatures, replacing any record there; never fails; a lookup then returns the device; the call trace gains `Create(device)` |
| Persistence.InMemory.GetDevices | internal/persistence/inmemory.go:47-54 | every stored device exactly once: the length equals the number of records, each element is stored under its id, ids are distinct |
| Persistence.InMemory.GetDevice | internal/persistence/inmemory.go:57-64 | a stored id gives its device, any other id gives "device not found" |
| Persistence.InMemory.SaveSignature | internal/persistence/inmemory.go:67-79 | an unknown id gives "device not found" with no change; otherwise exactly one entry is appended to that device's list, and nothing else changes; either way the call trace gains `Save` |
| Persistence.InMemory.GetLastSignature | internal/persistence/inmemory.go:82-101 | "device not found", then "no signatures found", otherwise the signed data of the first entry with the latest stamp |
| Persistence.InMemory.GetSignatures | internal/persistence/inmemory.go:104-116 | "device not found" for an unknown id; otherwise the log of the device's entries in insertion order |
| Persistence.InMemory.IncrementSignatureCounter | internal/domain/device.go:34 | an unknown id gives "device not found" with no change; otherwise only that device's counter goes up by one; either way the call trace gains `Increment` |
| Persistence.InMemory.RunTransaction | internal/persistence/inmemory.go:119-124 | the body may run exactly when the id is stored; otherwise the unguarded dereference panics |
| Devices.DeviceService.constructor | internal/domain/device.go:49-55 | the service holds the given store and generator |
| Devices.DeviceService.CreateDevice | internal/domain/device.go:57-78 | the generator is asked for a key pair of the tag with the given random draw; its error is returned unchanged with the store and the call trace untouched; otherwise the device `(newId, 0, keyPair, algorithm, label)` is stored with no signatures and returned, with one `Create` call; the tag is passed on unchecked |
| Devices.DeviceService.IncrementSignatureCounter | internal/domain/device.go:81-83 | the store's increment, result, effect and trace entry unchanged |
| Devices.DeviceService.GetDevices | internal/domain/device.go:85-87 | the store's device list, each stored device exactly once |
| Devices.DeviceService.GetDevice | internal/domain/device.go:89-91 | the store's lookup, result unchanged |
| Signatures.Signed | internal/domain/signature.go:89-98 | after success the entry is appended, stamped, and the counter is one higher |
| Signatures.SignatureService.constructor | internal/domain/signature.go:40-47 | the service holds the given device service, signer creator and store |
| Signatures.SignatureService.SignTransaction | internal/domain/signature.go:49-107 | an unknown id panics before the body runs; a failure of the body is returned under "failed to sign transaction" with the store unchanged; success returns the entry `SignOutcome` gives for the random draw, the store has it appended with the counter advanced, and the call trace gains `Save` then `Increment` and nothing else; on every failure the trace is unchanged |
| Signatures.SignatureService.PickLink | internal/domain/signature.go:59-68 | the link is base64 of the id while the counter is 0; otherwise the signature `GetLastSignature` reports, or its error under "failed to retrieve last signature" |
| Signatures.SignatureService.TransactionBody | internal/domain/signature.go:52-101 | the closure yields exactly `SignOutcome` of the stored record; on failure the store and the call trace are unchanged; on success the trace gains exactly `Save(id, entry, now)` followed by `Increment(id)`, so the save comes first and nothing undoes it |
| Signatures.ChainLink | internal/domain/signature.go:59-68 | the link a transaction signs over: the base link while the counter is 0, otherwise the latest stored signature, or "failed to retrieve last signature" when there is none; related to the chain by `ChainLinkIsLinkBefore` |
| Signatures.SignOutcome | internal/domain/signature.go:59-87 | the result of one transaction's signing steps: link, signer creation, signing of `Payload(counter, data, link)`, base64 of the signer output, each failure under its `fmt.Errorf` context; its properties are `OutcomePayload`, `BaseCaseIgnoresLog` and `NonZeroLink` |
| Signatures.SignatureService.GetSignatures | internal/domain/signature.go:109-116 | the store's list unchanged, or its error under "failed to retrieve signatures" |
| Signatures.FreshRecordChained | internal/domain/device.go:63-69 | a newly created device, counter 0 and no entries, satisfies the chain invariant |
| Signatures.ChainLinkIsLinkBefore | internal/domain/signature.go:59-68 | under the chain invariant the link is the base link for an empty log, else the most recently appended signature |
| Signatures.SignKeepsChain | internal/domain/signature.go:52-101 | a successful transaction stamped later than all entries keeps the invariant: counter equals log length, stamps increase, every entry is chained, and no stored signature contains `_` |
| Signatures.BaseCaseIgnoresLog | internal/domain/signature.go:60-61 | with counter 0 the link is the base link and the outcome does not depend on the stored entries |
| Signatures.NonZeroLink | internal/domain/signature.go:61-68 | with a non-zero counter the link is the reported last signature; with no entries the error reads "failed to retrieve last signature: no signatures found" |
| Signatures.AppendKeepsLinkFree | internal/domain/signature.go:84-89 | appending an entry whose signature has no `_` keeps every stored signature free of `_` |
| Signatures.OutcomePayload | internal/domain/signature.go:71-87 | on success the payload is `Payload(counter, data, link)`, the signer signed exactly that payload, and the signature is base64 of its output |
| Signatures.OutcomePayloadParses | internal/domain/signature.go:76 | under the chain invariant alone the new payload parses back into the log length, the data and the link |
| Signatures.ZeroCounterPayload | internal/domain/signature_test.go:112 | counter 0 with data `data` gives the payload `0_data_` followed by the link |
| Signatures.NilDeviceScenario | internal/domain/signature_test.go:86-113 | a fresh nil-id device whose signer returns `signed_data` for the payload `0_data_MDAwMDAwMDAtMDAwMC0wMDAwLTAwMDAtMDAwMDAwMDAwMDAw` gives the signature `c2lnbmVkX2RhdGE=` over exactly that payload |
| Middleware.Step | internal/api/middleware.go:23-31 | one `WriteHeader(code)` on the latch: the first call records the code, later calls leave it; its properties are `LatchedStays` and `FirstWriteWins` |
| Middleware.Forward | internal/api/middleware.go:24-29 | the codes one `WriteHeader(code)` passes to the wrapped writer: the code on the first call, nothing later |
| Middleware.HeaderSink.WriteHeader | internal/api/middleware.go:29 | the wrapped writer receives the code |
| Middleware.LatchedStays | internal/api/middleware.go:24-26 | once a header is written, later calls change nothing and forward nothing |
| Middleware.FirstWriteWins | internal/api/middleware.go:23-31 | after any non-empty sequence of calls the status is the first code, and the wrapped writer received exactly that code, once |
| Middleware.ResponseWriter.Wrap | internal/api/middleware.go:15-17 | a wrapped writer starts with status 0 and no header written |
| Middleware.ResponseWriter.Status | internal/api/middleware.go:19-21 | the recorded status: 0 before any header, afterwards the one code forwarded |
| Middleware.ResponseWriter.WriteHeader | internal/api/middleware.go:23-31 | the first call records and forwards the code; later calls are no-ops; at most one code, the recorded status, goes through |

## Left out

- Cryptography: key generation, signer creation and signing are collaborators given as function values. A key pair is an opaque handle. `internal/crypto/` is not part of this model.
- `Devices.DeviceService.CreateDevice`: the random octets that key generation reads from `crypto/rand` (`internal/crypto/generation.go:42`, `:59`) are the `entropy` argument; the generator is a function of the tag and that draw.
- `Signatures.SignatureService.SignTransaction`: the signer is a function of the payload and an `entropy` argument. ECDSA signing (`internal/crypto/signer.go:42`) reads random octets from `crypto/rand`, which `entropy` stands for. RSA signing (`:61`) passes a plain hash as options, so it is PKCS #1 v1.5 and deterministic; for RSA the `entropy` argument allows more signatures than Go can produce.
- HTTP transport, JSON mapping, routing, `LoggingMiddleware` itself (logging, timing, `recover`), configuration loading, application wiring and process lifecycle.
- Contexts, the logger, and the per-device `sync.Mutex`: each transaction body runs as one sequential step. Locking and races are not modelled.
- Time: `createdAt` is a natural number supplied by the caller (`now` in `SignTransaction`), not `time.Now()`. The chain theorem assumes each stamp is later than the earlier ones; with equal stamps `GetLastSignature` can return an earlier entry (`Persistence.LatestIsLastIff`).
- `uuid.New()`: `DeviceService.CreateDevice` takes the fresh id as a parameter.
- `Domain.Device.Incremented`: the counter is an unbounded natural number; the 64-bit wrap-around of `uint64` is not modelled.
- `Persistence.InMemory.IncrementSignatureCounter`: the store's file has no such method, though the device persister interface at `internal/domain/device.go:34` requires one. It is added here as the interface describes.
- `Persistence.InMemory.constructor`: it follows the store's file, which takes no argument. The application wiring passes a marshaler to a newer variant that is not part of this model.
- `Persistence.InMemory.RunTransaction`: Go runs the closure inside the lock. Here the method only decides whether the body may run, and the caller runs the body right after. A missing id is a nil-pointer panic in Go; here it is the error `NilDereference`, returned without the "failed to sign transaction" context.
- Failure paths that the in-memory store cannot take: persisting in `CreateDevice`, and the save, increment and device lookup inside the transaction once `RunTransaction` has found the id. These branches are kept in the methods as in the source, but no input reaches them, so no contract speaks about them.
- `Signatures.SignatureService.TransactionBody`: Go saves the entry before it increments the counter and does not undo the save when the increment fails (`internal/domain/signature.go:89-98`). The call trace states the order and that no undo call is made, but the store after a failed increment is not described, because the in-memory store cannot fail an increment right after a save on the same id.
- `Persistence.InMemory.GetDevices`: the store returns no error, so the result is a plain sequence. Go map iteration order is not modelled; the contract leaves the order open.
- Signing takes the payload as a string. Go's `[]byte(payload)` is a one-to-one conversion, so nothing is lost.
- `Uuids.UuidString`: only the canonical lower-case form is produced. The other forms that Go's `uuid.Parse` accepts are not modelled.
- `Middleware.ResponseWriter.WriteHeader`: only the status path is modelled. Go's `responseWriter` embeds `http.ResponseWriter` (`internal/api/middleware.go:9-13`), so a handler's `Write` before any `WriteHeader` makes the wrapped writer send 200 while `Status()` still returns 0; `Write` and `Header` are not modelled.
