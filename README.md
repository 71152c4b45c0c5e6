# Proof of Fun: Filecoin storage service, in Dafny

This project models `FilecoinStorageService`, the class the Proof of Fun event
platform uses to keep its data on Filecoin through the Synapse SDK. It proves
properties of the model.

The service is a session over one wallet and one RPC endpoint:

- `initialize` opens the session once.
- `setupPayment` checks the wallet's USDFC balance. When the balance covers the
  requested amount, it deposits that amount and approves the Warm Storage
  operator in one call.
- Three `store*` operations wrap a record in a typed envelope (event metadata,
  Proof of Fun results, a merchandise catalog), encode it and upload it. Each
  returns the piece identifier and the size.
- `download` fetches a piece and parses it back.
- `close` drops the session.

Every operation except `initialize` and `close` throws "not initialized" while
the session is closed.

Files:

- `wrappers.dfy`: `Option`, `Result` and `Outcome`, the error-carrying results
  the operations return where the source throws.
- `json_codec.dfy`: JSON values, property access, and a byte codec standing for
  `JSON.stringify`/`TextEncoder` and `TextDecoder`/`JSON.parse`. Its round trip
  and injectivity are proved.
- `units.dfy`: `ethers.parseUnits` and `ethers.formatUnits` between decimal
  text and base units, with the proof that parsing what was formatted gives the
  amount back.
- `documents.dfy`:
  - the records `EventMetadata`, `ProofOfFunResults` and `MerchItem`;
  - the three envelopes;
  - the JSON object each envelope becomes. Envelope members follow the order of
    the object literal; record members follow the order the interfaces declare;
  - the typed reading of those objects back, with its round trip.
- `storage_network.dfy`: the remote side, as a `Network` class. It holds the
  wallet balance, the log of accepted deposit calls, a content-addressed map
  from piece identifiers to bytes, and the provider list.
- `filecoin_storage.dfy`: the `FilecoinStorageService` class itself. Its fields
  are `synapse` and `isInitialized`. Its session invariant is `Valid()`.
  - `PaymentPlan` specifies `setupPayment`: the deposit it submits, or the
    error it throws first.
  - `Fetch` specifies `download`.
- `workflow.dfy`: the example workflow, proved from the service's contracts
  alone. It deposits, stores the three documents, downloads the results and
  reads `type` and `results.overall_rating`. A second client shows that a closed
  session refuses to store and that it can be opened again.

Inputs the source takes from outside become parameters:

- `new Date().toISOString()` becomes a `timestamp` argument of each `store*`
  operation.
- `process.env` becomes an `Environment` value: `PRIVATE_KEY`, `RPC_URL` and
  `PROOF_OF_FUN_ADDRESS`.
- The Synapse SDK's calls become methods of `Network`.

Three behaviours of the code that the model keeps:

- `close` is not final: `initialize` may open a new session afterwards
  (FilecoinStorage.ts:61-76, 251-255).
- `download` returns whatever the piece parses to. It does not check the
  envelope's `type` (FilecoinStorage.ts:217-223).
- `store*` returns the size the upload reports. The code compares it with
  nothing (FilecoinStorage.ts:133-141).

## Model

| member | source | states |
|---|---|---|
| FilecoinStorage.FilecoinStorageService.Create | proof-of-fun-filecoin/src/FilecoinStorage.ts:49-56 | The private key defaults to `PRIVATE_KEY` and the URL to `RPC_URL`, then to the Calibration endpoint. An unset or empty variable falls back, as JavaScript's logical or does. Construction fails with MissingPrivateKey exactly when the resulting key is empty. Otherwise it yields a fresh, valid, not-initialized service with that key and URL. |
| FilecoinStorage.FilecoinStorageService.constructor | proof-of-fun-filecoin/src/FilecoinStorage.ts:46-52 | A new service starts with no session (`synapse` null, `isInitialized` false) and satisfies the session invariant. |
| FilecoinStorage.Synapse.constructor | proof-of-fun-filecoin/src/FilecoinStorage.ts:69-72 | The SDK instance `Synapse.create` returns is bound to the key and RPC URL it was given, and to the network that URL leads to. |
| FilecoinStorage.FilecoinStorageService.Initialize | proof-of-fun-filecoin/src/FilecoinStorage.ts:61-76 | Afterwards the session is open and the invariant holds. A second call keeps the existing SDK instance. A first call creates a fresh one bound to the service's key, URL and network. |
| FilecoinStorage.FilecoinStorageService.SetupPayment | proof-of-fun-filecoin/src/FilecoinStorage.ts:81-112 | The outcome and the new ledger state are exactly what PaymentPlan decides from the session, the balance read and the amount text. On refusal nothing is deposited. On acceptance exactly that one call is appended and the balance drops by its amount. Stored pieces never change. |
| FilecoinStorage.PaymentPlan | proof-of-fun-filecoin/src/FilecoinStorage.ts:82-108 | No session gives NotInitialized. Unparsable text gives InvalidAmount. A balance below the 18-decimal amount gives InsufficientBalance, and only then. A balance that covers it succeeds, and only then. A success carries the parsed amount, the Warm Storage operator, both allowances at MaxUint256 and EPOCHS_PER_MONTH. |
| FilecoinStorage.DefaultAmountGate | proof-of-fun-filecoin/src/FilecoinStorage.ts:81-98 | The default "2.5" is 2.5 × 10^18 base units. Any balance below that, an empty wallet included, is refused with InsufficientBalance("2.5"). Any balance at or above it deposits exactly 2.5 × 10^18 for the operator. |
| Units.FormatUnits | proof-of-fun-filecoin/src/FilecoinStorage.ts:88 | For every amount, parsing the text `formatUnits` prints gives back the same number of base units. |
| Units.ParseUnits | proof-of-fun-filecoin/src/FilecoinStorage.ts:91 | A negative amount comes only from text that starts with '-'. Text that starts with '-' never gives a positive amount. |
| Units.ParseUnitsSyntax | proof-of-fun-filecoin/src/FilecoinStorage.ts:91 | Text is accepted exactly when, after an optional leading '-', it consists of ASCII digits and at most one '.', has at least one digit, and every fractional digit beyond the `decimals`-th (the 18th here) is '0'. |
| Units.ParseUnitsValue | proof-of-fun-filecoin/src/FilecoinStorage.ts:91 | Unsigned text with a '.' is accepted whenever it has whole digits `w` (possibly none), at most `decimals` fractional digits `f` (possibly none), any number of further zeros, and at least one digit in all (".5", "5.", ".0", "1.5000…0" past the 18th digit). Its value is w × 10^decimals plus f scaled to `decimals` digits. |
| Units.PointForm | proof-of-fun-filecoin/src/FilecoinStorage.ts:91 | Every accepted unsigned text with a '.' splits into its whole digits, the '.', its first `decimals` fractional digits (all of them when there are fewer) and zeros, with at least one digit in all: the form ParseUnitsValue gives the value of. |
| Units.ParseWholeValue | proof-of-fun-filecoin/src/FilecoinStorage.ts:91 | Unsigned text of one or more digits and no '.' is that whole number times 10^decimals. |
| Units.ParseNegated | proof-of-fun-filecoin/src/FilecoinStorage.ts:91 | A leading '-' is accepted exactly when the rest is, and then negates the rest's amount. With the two lemmas above, this gives the value of every accepted text. |
| StorageNetwork.Network.WalletBalance | proof-of-fun-filecoin/src/FilecoinStorage.ts:87 | Reading the USDFC balance returns the wallet's current balance and changes nothing. |
| FilecoinStorage.FilecoinStorageService.UploadEnvelope | proof-of-fun-filecoin/src/FilecoinStorage.ts:128-135 | The step the three `store*` operations share (also lines 165-170 and 194-199): without a session, NotInitialized and no upload; with one, the envelope's encoding is stored under its own identifier, that identifier and the byte length are returned, and the balance and deposits are untouched. |
| FilecoinStorage.FilecoinStorageService.StoreEventMetadata | proof-of-fun-filecoin/src/FilecoinStorage.ts:117-142 | Without a session: NotInitialized and nothing uploaded. With one: exactly the encoding of the event envelope is added to the store, and the identifier and size the upload reports are returned. The balance and deposits are unchanged. |
| FilecoinStorage.FilecoinStorageService.StoreProofOfFunResults | proof-of-fun-filecoin/src/FilecoinStorage.ts:147-177 | As for events, with the results envelope for the given event id and configured contract address. |
| FilecoinStorage.FilecoinStorageService.StoreMerchCatalog | proof-of-fun-filecoin/src/FilecoinStorage.ts:182-206 | As for events, with the catalog envelope of the items. |
| Documents.EventDocument | proof-of-fun-filecoin/src/FilecoinStorage.ts:122-126 | The event envelope carries the type tag "event_metadata", the call's timestamp and the event record as its data. |
| Documents.ResultsDocument | proof-of-fun-filecoin/src/FilecoinStorage.ts:155-163 | The results envelope carries the type tag "proof_of_fun_results", the event id, the call's timestamp and the results record. It is always marked `blockchain_verified` on "Base Sepolia", and its `contract` is the configured address, if any. |
| Documents.CatalogDocument | proof-of-fun-filecoin/src/FilecoinStorage.ts:187-192 | The catalog envelope carries the type tag "merch_catalog", the call's timestamp, the items in their order and `total_items` equal to their number. |
| Documents.EventDocumentMembers | proof-of-fun-filecoin/src/FilecoinStorage.ts:122-126 | The uploaded event object reads `type` "event_metadata", `timestamp` the call's time, and `data` the event record. |
| Documents.ResultsDocumentMembers | proof-of-fun-filecoin/src/FilecoinStorage.ts:155-159 | The uploaded results object reads `type` "proof_of_fun_results", `event_id` the given id, `timestamp` the call's time, and `results` the results record. |
| Documents.ResultsDocumentMarks | proof-of-fun-filecoin/src/FilecoinStorage.ts:160-162 | The uploaded results object always reads `blockchain_verified` true and `network` "Base Sepolia". It has a `contract` member exactly when a contract address is configured, and then that member is the address. |
| Documents.CatalogDocumentMembers | proof-of-fun-filecoin/src/FilecoinStorage.ts:187-192 | The uploaded catalog object reads `type` "merch_catalog", `timestamp` the call's time, `total_items` the number of items, and `items` the items in their order. |
| Documents.EventRoundTrip | proof-of-fun-filecoin/src/FilecoinStorage.ts:10-19 | The JSON object of an event record reads back as the same record. |
| Documents.ResultsRoundTrip | proof-of-fun-filecoin/src/FilecoinStorage.ts:21-33 | The JSON object of a results record reads back as the same record, category ratings and vote distributions included, in their order. |
| Documents.ItemRoundTrip | proof-of-fun-filecoin/src/FilecoinStorage.ts:35-43 | The JSON object of a merchandise item reads back as the same item, with or without the optional `sizes`. |
| Documents.ItemsRoundTrip | proof-of-fun-filecoin/src/FilecoinStorage.ts:190-191 | A catalog's item array reads back as the same items in the same order. |
| Documents.EnvelopeRoundTrip | proof-of-fun-filecoin/src/FilecoinStorage.ts:122-192 | Each of the three envelopes reads back from its JSON object as the same envelope. |
| Documents.DecodeEncode | proof-of-fun-filecoin/src/FilecoinStorage.ts:128-129 | Decoding the bytes `EncodeEnvelope` produces for any envelope gives back that envelope. `EncodeEnvelope` stands for `JSON.stringify` followed by `TextEncoder.encode`, here and at lines 165-166 and 194-195. |
| Documents.EncodeEnvelopeInjective | proof-of-fun-filecoin/src/FilecoinStorage.ts:128-129 | Two different envelopes are never uploaded as the same bytes. |
| JsonCodec.ParseRefusesTrailing | proof-of-fun-filecoin/src/FilecoinStorage.ts:218-219 | A serialized document followed by any further bytes does not parse, as `JSON.parse` rejects text after the value. |
| JsonCodec.ParseSerialize | proof-of-fun-filecoin/src/FilecoinStorage.ts:218-219 | Parsing the serialization of any JSON value gives back that value. |
| JsonCodec.SerializeInjective | proof-of-fun-filecoin/src/FilecoinStorage.ts:128-129 | Different JSON values serialize to different bytes. |
| JsonCodec.RoundTrip | proof-of-fun-filecoin/src/FilecoinStorage.ts:218-219 | Decoding a value's encoding followed by any other bytes gives the value and leaves exactly those bytes. |
| JsonCodec.LookupFirst | proof-of-satisfaction-filecoin/src/examples/full-workflow.ts:171-172 | Property access on an object yields the value of the first member with that key. |
| JsonCodec.LookupAbsent | proof-of-fun-filecoin/src/FilecoinStorage.ts:162 | Property access finds nothing when no member has the key, as for an unset contract address. |
| FilecoinStorage.FilecoinStorageService.Download | proof-of-fun-filecoin/src/FilecoinStorage.ts:211-224 | Without a session: NotInitialized. With one: the result is Fetch of the current store, and nothing changes. |
| FilecoinStorage.Fetch | proof-of-fun-filecoin/src/FilecoinStorage.ts:217-219 | An unknown identifier gives PieceNotFound, and only an unknown one does. For a stored piece, the result is a success holding the parsed value exactly when the bytes parse, and InvalidJson exactly when they do not. |
| FilecoinStorage.StoredDocumentDownloads | proof-of-fun-filecoin/src/FilecoinStorage.ts:217-223 | Fetching the identifier returned for an uploaded envelope yields the envelope's JSON object, which reads back as the envelope. |
| FilecoinStorage.LaterUploadKeepsEarlier | proof-of-satisfaction-filecoin/src/examples/full-workflow.ts:140-170 | In a content-addressed store, a later upload never changes what an earlier identifier fetches. |
| Documents.TypeMember | proof-of-satisfaction-filecoin/src/examples/full-workflow.ts:171 | `downloaded.type` of any envelope's object is its type tag. |
| Documents.OverallRatingMember | proof-of-satisfaction-filecoin/src/examples/full-workflow.ts:172 | `downloaded.results.overall_rating` of a results object is the overall rating it was built from. |
| FilecoinStorage.FilecoinStorageService.GetStorageInfo | proof-of-fun-filecoin/src/FilecoinStorage.ts:229-235 | Without a session: NotInitialized. With one: the network's provider list, and nothing changes. |
| StorageNetwork.Network.Providers | proof-of-fun-filecoin/src/FilecoinStorage.ts:234-235 | The storage information lists exactly the network's providers, and reading it changes nothing. |
| FilecoinStorage.FilecoinStorageService.Close | proof-of-fun-filecoin/src/FilecoinStorage.ts:251-255 | Both session fields are cleared and the invariant holds, so every guarded operation then fails. |
| StorageNetwork.Network.DepositWithPermitAndApproveOperator | proof-of-fun-filecoin/src/FilecoinStorage.ts:102-110 | The ledger accepts a call exactly when its amount is non-negative and covered by the balance. It then moves the amount out of the wallet and logs the call. Pieces are untouched. |
| StorageNetwork.Network.Upload | proof-of-fun-filecoin/src/FilecoinStorage.ts:133-135 | The whole buffer is stored under the identifier of its own bytes, and its length is the reported size. |
| StorageNetwork.Network.Download | proof-of-fun-filecoin/src/FilecoinStorage.ts:217 | Returns the stored bytes, or nothing for an unknown identifier. Returned bytes always match the identifier. |
| Workflow.FullWorkflow | proof-of-satisfaction-filecoin/src/examples/full-workflow.ts:13-174 | Without a private key: MissingPrivateKey and no change. With a balance under 2.5 USDFC: InsufficientBalance("2.5"), nothing deposited or uploaded. Otherwise the downloaded results have `type` "proof_of_fun_results" and the stored overall rating, the balance drops by 2.5 × 10^18, and exactly one deposit is logged. |
| Workflow.StoreAndReadResults | proof-of-satisfaction-filecoin/src/examples/full-workflow.ts:49-170 | Storing the event, then the results, then the catalog, and downloading the results identifier, yields the results envelope's object. Deposits and the balance are unchanged. |
| Workflow.ReopenAfterClose | proof-of-fun-filecoin/src/FilecoinStorage.ts:251-255 | After `close`, storing fails with NotInitialized. After `initialize` again, storing succeeds with the identifier of the envelope's bytes. |

## Left out

- Console output (balances, identifiers, provider listings, the ipfs.io link) has no effect on state and is not modelled.
- `JSON.stringify(..., null, 2)` and `TextEncoder` are replaced by an injective prefix codec over the same JSON tree; the bytes are not RFC 8259 text and `size` is the length of that stand-in encoding, not of the indented JSON text.
- JavaScript numbers are modelled as integers (ids, counts, stock) and as decimal mantissa/exponent pairs (ratings, prices); floating-point rounding, NaN and Infinity (which `JSON.stringify` writes as `null`) are left out. The mantissa/exponent pairs are not normalised: `Decimal(45, -1)` and `Decimal(450, -2)` are the same JavaScript number 4.5, which `JSON.stringify` writes one way, but the model encodes them as different bytes under different piece identifiers. So `EncodeEnvelopeInjective` and content addressing distinguish envelopes that JavaScript cannot.
- `Record<string, …>` members (`category_ratings`, `distribution`) are sequences of key/value pairs kept in the order given; JavaScript would list integer-like keys first in ascending order and would not hold duplicate keys.
- JsonCodec.Member: returns the first member with a key, where `JSON.parse` keeps the last. The envelope and record objects never repeat a key, but the `category_ratings` and `distribution` objects may, since their key/value lists may hold a key twice.
- Payload member order: the model writes the members of `data`, `results` and `items` in the order the interfaces declare them, and the typed reading accepts only that order. In JavaScript they follow the caller's insertion order, and the caller may pass extra properties, which `JSON.stringify` also writes; neither is modelled.
- Strings are sequences of Unicode scalar values; JavaScript strings are UTF-16 and may hold lone surrogates, which are not modelled.
- `TextDecoder`'s replacement of malformed UTF-8 is not modelled: the stand-in codec refuses malformed input (InvalidJson).
- Units.ParseUnits: the 512-bit range check that `ethers` applies to the parsed value is not modelled, since every amount is an unbounded integer here.
- Units.FormatUnits: requires at least one decimal; the service only ever formats with 18.
- The Synapse SDK is not part of this model: `Synapse.create` failures, RPC or network errors, a deposit transaction that reverts after submission (only the ledger's refusal is modelled, as DepositRejected), upload size limits, and the real CommP piece commitment (modelled as a commitment that is the bytes themselves).
- The balance read and the deposit in `setupPayment` run as one atomic step; concurrent transactions on the same wallet between the two awaits are not modelled.
- `async`/`await` is modelled as sequential execution; concurrent calls on one service are not modelled.
- `getStorageInfo` only prints the providers; the model returns the list instead.
- proof-of-satisfaction-filecoin/src/index.ts (readline menu), the other example scripts, check-balance.ts (floating-point thresholds) and the Hardhat deployment scripts are not part of this model; full-workflow.ts is modelled only as the client in `workflow.dfy`.
