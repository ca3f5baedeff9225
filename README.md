# Interop core of the Fabric token SDK, in Dafny

This project models the sequential core behind the token SDK's interoperability
support (pledge, claim, reclaim and redeem of tokens across Fabric networks), and
proves what that code promises.

- **Owner dispatch.** A token owner is a raw-owner envelope: a type tag plus the
  bytes that tag governs. The tags are serialized identity, HTLC script and pledge
  script; an empty owner is a redeem. This tag decides:
  - the audit information of an owner (`Interop`);
  - the verifier built for an owner (`PledgeDeserializer`);
  - the receiver and the receiver audit info of every transfer output
    (`FabTokenTransfer`);
  - whether a pledged token is one of this node's (`PledgeWallet`).
- **Action assembly.** `FabTokenTransfer` builds a transfer action and its
  metadata. `FabTokenIssue` builds an issue action with its per-output metadata
  and its origin-linkage map.
- **Pledged-token lookup.** `PledgeWallet.RetrievePledgedToken` finds the unique
  unspent pledged token with a given id.
- **Proof checks.** `FabTokenState` holds the semantic checks that the state
  verifier applies to relay proofs of existence, of non-existence and of
  existence of a token carrying origin metadata.
- **Registries and caches.** `Registry` is the write-once name-to-driver
  registry and its sorted name listing. `FabricState` and `CoreState` are the
  per-URL caches that create state query executors, state verifiers and state
  service providers on a miss.

Decoders and encoders are parameters of the model, so every result holds for
any decoder. These are the raw-owner envelope, the JSON of scripts, proofs and
claims, URL parsing, hashing, hex and quantity parsing. `None` stands for a
decoding error. A proof is a record of its cryptographic verdict (a flag) and
its read set. Byte strings are `seq<bv8>`. Timestamps and quantities are
integers.

`Results.Collect` is the shared specification of a Go loop that appends one
value per element and returns at the first error. The loops in
`FabTokenTransfer` are proved equal to it, element function by element function.

## Model

| member | source | states |
|---|---|---|
| Interop.GetScriptSenderAndRecipient | token/core/interop/info.go:71-89 | an HTLC script gives its sender and recipient and no issuer; a pledge script gives sender, recipient and issuer; a script that does not decode is an error; a tag other than the two script types is an error naming it, and only such a tag gives that error |
| Interop.GetOwnerAuditInfo | token/core/interop/info.go:24-62 | a redeem gives no audit info and no error; an undecodable owner is an error; a serialized identity gets exactly the provider's audit info of the whole raw owner; a script owner whose parties decode and whose sender and recipient audit lookups both succeed gets exactly the ScriptInfo of those two audit infos (for a pledge, the recipient and not the issuer), and a ScriptInfo is returned for nothing else; success means a known tag; script errors and every failed audit lookup propagate |
| PledgeDeserializer.GetPledgeVerifier | token/core/interop/pledge/deserializer.go:55-73 | malformed script bytes are an error; a sender that does not deserialize aborts before the issuer is looked at; success exactly when sender and issuer both deserialize, and the verifier then carries both and the script's id as pledge id |
| PledgeDeserializer.GetHTLCVerifier | token/core/interop/pledge/deserializer.go:75-96 | malformed script bytes are an error; the sender is deserialized first; success exactly when sender and recipient deserialize, and the deadline and the hash, hash function and encoding are copied unchanged |
| PledgeDeserializer.DeserializeVerifier | token/core/interop/pledge/deserializer.go:37-53 | an undecodable owner fails before any dispatch; a serialized identity is handed whole to the owner deserializer; a pledge or HTLC owner gets exactly the outcome of building that verifier from the script bytes the envelope carries; the kind of verifier follows the tag; an unknown tag is an error naming it; success exactly when the tag is known and every identity the verifier needs deserializes |
| PledgeWallet.RetrievePledgedToken | token/services/interop/pledge/wallet.go:132-160 | among tokens with the wanted id, the first whose owner or pledge script does not decode decides the error; otherwise tokens of other owner types are ignored, none pledged is one error, two or more is another, and success returns the unique pledged token together with the script decoded from that same token |
| PledgeWallet.AmIAnAuditor | token/services/interop/pledge/wallet.go:164-166 | a script owner is never an auditor |
| PledgeWallet.FirstWallet | token/services/interop/pledge/wallet.go:187-208 | finds a wallet exactly when some beneficiary has one, and names the wallet of the first such beneficiary in order |
| PledgeWallet.IsMine | token/services/interop/pledge/wallet.go:168-213 | mine only for a decodable pledge owner whose script decodes and names a sender, a recipient and an issuer; any other owner gives an empty list and false; a valid pledge is mine exactly when sender, recipient or issuer (tried in that order) has a wallet, and the one-element list names the first one found |
| FabTokenTransfer.ResolveReceivers | token/core/fabtoken/sender.go:63-98 | the receivers loop yields, per output in order, the receiver decided by the owner tag, or stops at the first output whose receiver cannot be resolved |
| FabTokenTransfer.CollectSenderAuditInfos | token/core/fabtoken/sender.go:100-107 | one audit info per input token, in order, each the owner's audit info, or the first failure |
| FabTokenTransfer.CollectReceiverAuditInfos | token/core/fabtoken/sender.go:109-145 | one receiver audit info per output, in order, or the first failure |
| FabTokenTransfer.Transfer | token/core/fabtoken/sender.go:25-172 | the outcome is that of loading the inputs, then resolving each receiver, then the sender audit infos, then the receiver audit infos, each stage stopping at its first failing element |
| FabTokenTransfer.TransferSucceeds | token/core/fabtoken/sender.go:27-145 | a transfer succeeds exactly when the inputs load and every receiver, sender audit info and receiver audit info can be obtained |
| FabTokenTransfer.NilOutputFails | token/core/fabtoken/sender.go:64-67 | a nil output, or one with a nil owner, anywhere fails the whole transfer |
| FabTokenTransfer.TransferShape | token/core/fabtoken/sender.go:31-166 | on success the action's inputs are the loaded ids and its outputs and metadata the given ones; senders are the input owners in input order; there is one sender audit info per input, each that owner's audit info; the token ids are the requested ones; each output has one empty outputs-metadata entry and one receiver; receiverIsSender has one entry per receiver, true exactly when that receiver has an owner wallet |
| FabTokenTransfer.TransferReceivers | token/core/fabtoken/sender.go:63-98 | on success a redeem output gives the empty receiver, a serialized identity the raw owner, an HTLC script its recipient and a pledge script its issuer; no other tag and no undecodable owner gets through |
| FabTokenTransfer.TransferReceiverAuditInfos | token/core/fabtoken/sender.go:109-145 | on success a redeem output has no receiver audit info, a non-pledge output has its owner's audit info, and a pledge output pairs the audit infos of the script's sender and issuer, while the owner's own audit info pairs the sender and the recipient |
| FabTokenIssue.OriginMetadata | token/core/fabtoken/issuer.go:59-83 | the origin-linkage map exists exactly when both the origin token id and the origin network are given, so the proof of claim alone creates nothing; it then has exactly two keys, the hash of the marshalled origin and that hash followed by "proof_of_claim", holding the marshalled origin and the proof (empty when absent) |
| FabTokenIssue.Issue | token/core/fabtoken/issuer.go:23-89 | an empty owner anywhere fails before any value is looked at; otherwise the first value not representable at the precision decides the error, and a representable value with no owner at its position is the out-of-range panic; success exactly when there is an owner for every value, all owners are non-empty and all values representable, and then one output per value for the owner at the same position with the value in hex, every output metadata records the issuer, and the returned identity and the action's issuer are the issuer |
| Tokens.UInt64ToQuantity | token/core/fabtoken/issuer.go:35-38 | a value converts exactly when the precision is between 1 and 64 bits and the value fits in it, and then keeps its value |
| Tokens.ToQuantity | token/core/fabtoken/state.go:160-163 | a text quantity converts exactly when the precision is between 1 and 64 bits and the text parses to a number that fits it, and then has the parsed value |
| FabTokenState.ReadState | token/core/fabtoken/state.go:121-137 | a missing read set, key or own TMS id is rejected in that order, and a failing state lookup is a read failure; otherwise the result is the value under the key in the verifier's namespace, or nothing when none was written |
| FabTokenState.ExistenceClaim | token/core/fabtoken/state.go:113-142 | an undecodable proof and a proof that fails cryptographic verification are rejected before anything is read from it; then a failed read is passed on and a missing or undecodable value is a malformed token; a token loads exactly when the proof verifies and the value under the existence key decodes, and it is that decoding |
| FabTokenState.PledgeMatch | token/core/fabtoken/state.go:145-171 | a failed pledge lookup is rejected, and so is any number of pledges but one; then the type is compared, then the quantity as a number; a match means exactly one pledge, equal type and amount, and a decodable owner |
| FabTokenState.ScriptChecks | token/core/fabtoken/state.go:175-194 | an undecodable script is rejected; then a missing recipient, a different recipient, deadline or destination network are each rejected in that order; accepted exactly when all agree with the recorded pledge |
| FabTokenState.VerifyProofExistence | token/core/fabtoken/state.go:111-195 | as written: a proof failing cryptographic verification is rejected whatever its fields; a token that does not load keeps its rejection, then a failed pledge match keeps its own (lookup, count, type before quantity, owner), and a pledge-script owner gets exactly the verdict of the script checks (recipient, deadline, destination in that order); accepted exactly when the token loads and matches the unique pledge and, only when the owner is a pledge script, that script passes its checks, so every other owner type is accepted |
| FabTokenState.VerifyProofExistenceIntended | token/core/fabtoken/state.go:111-195 | as intended: rejected on a failed cryptographic check; the same rejections as written for loading and pledge matching, then a non-pledge owner is rejected as such, and a pledge-script owner gets the verdict of the script checks; accepted exactly when the token loads, matches the unique pledge, has a pledge-script owner, and that script passes every check |
| FabTokenState.NonPledgeOwnerAccepted | token/core/fabtoken/state.go:168-174 | as written, a verified proof of a token matching the unique pledge in type and quantity, but owned by anything other than a pledge script (a serialized identity, an HTLC script, an unknown tag), is accepted, while the intended check rejects it |
| FabTokenState.ExistenceAgreesOnPledgeOwners | token/core/fabtoken/state.go:172-194 | the written and the intended existence checks give the same verdict unless the proven owner decodes to a non-pledge type |
| FabTokenState.QuantityComparedNumerically | token/core/fabtoken/state.go:160-167 | two quantity texts that parse to the same number give the same pledge match, so quantities are compared by value and not by encoding |
| FabTokenState.OriginClaim | token/core/fabtoken/state.go:199-234 | an unparsable origin URL is rejected first, then an undecodable proof; a failed read is passed on, and a key with nothing written under it is rejected as not found; the claim loads exactly when every stage succeeds, and is the origin's TMS id, the decoded proof and the value under the key |
| FabTokenState.VerifyProofNonExistence | token/core/fabtoken/state.go:197-253 | a claim that does not load keeps its rejection and one that does not decode is malformed; accepted exactly when the claim is found and decodes, agrees on deadline, token id and origin, and the proof verifies; the field checks come in the order deadline, token id, origin, and all of them come before the cryptographic check |
| FabTokenState.VerifyProofTokenWithMetadataExistence | token/core/fabtoken/state.go:257-310 | a claim that does not load keeps its rejection and one that does not decode is malformed; accepted exactly when the claim is found and decodes, agrees on token id and origin, and the proof verifies; token id, then origin, then the cryptographic check, with no deadline check |
| Registry.LexLeTotal | token/core/fabric/fabric.go:73 | any two names are ordered one way or the other |
| Registry.LexLeTrans | token/core/fabric/fabric.go:73 | the name order is transitive |
| Registry.SortStrings | token/core/fabric/fabric.go:73 | sorting yields an ascending permutation of the names |
| Registry.DriverRegistry.constructor | token/core/fabric/fabric.go:40 | a registry starts empty, as the package-level driver map here and in token/core/state.go:21 does |
| Registry.DriverRegistry.Register | token/core/fabric/fabric.go:46-56 | a nil driver and a taken name are refused and leave the map unchanged; otherwise exactly that name is added with that driver; the provider-driver registry of token/core/state.go:27-37 is the same |
| Registry.DriverRegistry.UnregisterAll | token/core/fabric/fabric.go:58-63 | the registry is left empty, here and in token/core/state.go:39-44 |
| Registry.DriverRegistry.Names | token/core/fabric/fabric.go:66-75 | exactly the registered names, each once, in ascending order, here and in token/core/state.go:47-56 |
| FabricState.FetchedIdentifier | token/core/fabric/fabric.go:103-111 | the identifier is that of the fetched public parameters, and fails exactly when the fetch or the parsing fails |
| FabricState.VerifierIdentifier | token/core/fabric/fabric.go:139-160 | an unparsable URL is an error; a TMS known locally gives its own identifier without fetching; otherwise the fetched parameters' identifier |
| FabricState.StateServiceProvider.constructor | token/core/fabric/fabric.go:84-91 | both caches start empty, so every URL with an executor has a verifier (`Valid`) |
| FabricState.StateServiceProvider.QueryExecutor | token/core/fabric/fabric.go:93-128 | a hit returns the cached executor and changes nothing; any failure, an unknown identifier included, leaves both caches unchanged; a miss succeeds exactly when the parameters name a driver that builds both, and then stores the executor and the verifier for the URL; every URL with an executor keeps a verifier |
| FabricState.StateServiceProvider.Verifier | token/core/fabric/fabric.go:130-173 | the executor cache is never written; a hit returns the cached verifier; failures leave the verifier cache unchanged; a miss succeeds exactly when the chosen identifier names a driver that builds a verifier, which is then stored for the URL |
| CoreState.StateServiceProvider.constructor | token/core/state.go:65-70 | the provider cache starts empty |
| CoreState.StateServiceProvider.Ssp | token/core/state.go:88-109 | a hit returns the cached provider unchanged; on a miss an unparsable URL, an unknown scheme (named in the error) and a failing driver are errors in that order; any failure leaves the cache unchanged; a miss succeeds exactly when the scheme's driver creates a provider, which is stored under the full URL |
| CoreState.StateServiceProvider.QueryExecutor | token/core/state.go:72-78 | a hit delegates to the cached provider and changes nothing; on a miss the provider errors are passed on, a created provider is cached even when its executor then fails, and no other entry changes; success exactly when a provider is had and its own executor for the same URL is created, and the result is that executor |
| CoreState.StateServiceProvider.Verifier | token/core/state.go:80-86 | a hit delegates to the cached provider and changes nothing; on a miss the provider errors are passed on, a created provider is cached even when its verifier then fails, and no other entry changes; success exactly when a provider is had and its own verifier for the same URL is created, and the result is that verifier |
| CoreState.SeparateEntriesPerURL | token/core/state.go:102-108 | two URLs with the same scheme get two cache entries |

## Left out

- Relay queries (`StateQueryExecutor`, the relay-backed state of the Fabric
  driver, and the public-parameter fetch) are network I/O through the relay; the
  fetch is an oracle result, bytes or a failure.
- Cryptographic proof verification is a flag of the proof. Read-set extraction
  gives an optional read set, whose lookups may fail. The zero-knowledge auditor
  check is foreign crypto.
- JSON, base64, hex, URL parsing, hashing and the quantity parsers are library
  code; they are function parameters (`Codecs`, `VerifierEnv`, `IssueEnv`,
  `Network`, the scheme parser).
- JSON marshalling of a ScriptInfo and of an output metadata never fails for
  these records, so those unreachable error branches are not modelled. The same
  holds for marshalling the origin metadata, whose failure panics in the source.
- Mutexes and concurrent access: each operation is atomic.
- Driver wiring, wallet and vault constructors, the transaction wrapper and the
  script type alias are plumbing.
- The integration harness and tests drive network topologies and are not part of
  this model.
- Logging and the debug print before the destination-network rejection are not
  modelled.
- A nil and an empty byte slice are the same in the model.
  - `IsNone` and the nil checks on recipients and owners test for the empty
    sequence.
  - A nil token or a nil owner in a transfer output is `None`.
- Token ids are compared by value. The source compares their string forms, and
  the model takes that form to be injective.
- Timestamps are integers, so a deadline mismatch is integer inequality.
- The type tags are "si", "htlc" and "pledge". Only their distinctness matters.
  - The deserializer's exchange-script tag is the HTLC tag.
  - The tags of the transfer service's HTLC helpers are the same tags.
- Go error messages, and the output index in the invalid-output error, are not
  modelled. Error constructors name the kind of failure, and some kinds occur
  at more than one place:
  - `Interop.AuditInfoUnavailable` is any of the three audit-info lookups.
  - `FabTokenState.URLInvalid` is either the origin URL or the verifier's own
    URL failing to parse.
  - `FabTokenState.TokenMalformed` is a missing value or one that does not
    decode.
- `FabTokenTransfer.Transfer`:
  - The source calls the HTLC package's copies of the owner audit-info and
    script-party helpers. They are not part of this model, so the versions in
    `Interop` stand for them.
  - The action's metadata map is filled from the options by a common helper
    that is not part of this model; the map is a parameter.
  - Three error branches of the receiver audit-info loop cannot be reached.
    These are an undecodable owner, a malformed pledge script and a missing
    sender audit info: an owner whose audit info was already obtained always
    decodes and has them.
  - The loops are split into three methods, one per stage.
  - The final serialization of the outputs is the identity on the modelled
    outputs.
- `FabTokenIssue.Issue` models the out-of-range panic of a value without an
  owner as the `MissingOwner` error.
  - The attributes are read as already typed. The source's type assertions
    panic on a mistyped attribute.
- `FabTokenState.VerifyProofExistence`:
  - The unused metadata argument is not modelled.
  - The pledge records for the token id come from the pledge vault and are a
    parameter (`None` when the lookup fails).
  - A missing value under the existence key is modelled as a token that does
    not decode, as the JSON decoding of nil fails.
- The relay selector and service providers are not modelled. They only choose
  which relay is queried.
- `Registry.DriverRegistry.Register`: a panic is modelled as a refusal
  outcome (`NilDriver` or `Duplicate`) with the map unchanged.
  - One generic registry models both the state-driver registry and the
    provider-driver registry, and its map content is what the caches receive as
    `drivers`.
- `Tokens.UInt64ToQuantity` and `Tokens.ToQuantity` stand for the token
  library's conversions, which are not part of this model. Both are taken to
  accept precisions from 1 to 64 bits only; the callers use the public
  parameters' precision and 64.
- `Registry.SortStrings` compares characters by code point. For UTF-8 strings
  this is the same order as byte-wise comparison.
- Creating a driver instance is a fixed optional result per URL (or per driver
  for providers). The service provider it receives is not modelled.
- The verify and deserialize helpers of the transfer and issue services
  (`VerifyTransfer`, `VerifyIssue`, `DeserializeTransferAction`,
  `DeserializeIssueAction`) are not modelled. They are outside the modelled core,
  and the first two accept everything.

## Findings

| source | as written | input that shows it | evidently intended | confidence | as-written member | corrected member |
|---|---|---|---|---|---|---|
| token/core/fabtoken/state.go:172-174 | when the proven token's owner is not a pledge script, the check returns the `err` of the successful owner decoding, which is nil, so the proof of existence is accepted | a cryptographically valid proof of a token whose type and quantity match the unique pledge but whose owner is a plain serialized identity | reject the proof, since it shows no pledge script to compare recipient, deadline and destination network against | not executed; high | FabTokenState.NonPledgeOwnerAccepted | FabTokenState.VerifyProofExistenceIntended |
