# Verified model of the Aviato pilot SDK

A Dafny 4.11 model of the protocol core of the SDK: the encrypted key-value registry, the client
orchestrator, the challenge handshake, certificates and session assertions, the multi-passkey vault,
the delivery of the per-server key K, and the publishing of connection information.
`dafny verify dfyconfig.toml` checks the whole project.

## How it is laid out (by file)

- `Text`, `Base64Url`, `Json`, `KeySort`, `Jcs`, `Stringified`, `Keys`: strings, bytes, base64url, JSON,
  canonical JSON and keys, written out concretely with their round trips.
- `Platform`: the primitives taken from WebCrypto and the noble libraries, as a record of functions.
  `Lawful` states the algebra the proofs use: signatures verify under their own key, key agreement is
  symmetric, authenticated decryption inverts encryption. It is shown to be satisfiable. Nothing is
  assumed about forgery or collisions; where a result needs that, its lemma says so for the
  ciphertexts of one run.
- `Schemas`, `VaultPayloads`, `ConnInfoPayloads`, `ClientBundles`: the wire schemas as readers of JSON objects.
- `KvStore`, `KvHistory`, `MemoryKvStore`, `KvClient`, `KvRefinement`, `KvReaders`: the registry.
- `Sessions`, `AuthStores`, `CertAuth`, `AuthRuns`: certificates, sessions, the stores and the handshake,
  first one call at a time and then with every await a point where other calls run.
- `Vault`: the vault and what it refines.
- `SealedBoxes`, `PairingAssertions`, `PairingResponses`, `KDelivery`: from the signed assertion to the opened K.
- `ConnInfo`, `ConnInfoPublisher`, `PublisherRuns`: sealing, opening and publishing connection information, and
  publishes that overlap.
- `ClientStorage`, `SignIns`, `BundleOrders`, `SignOuts`, `StoredIdentities`, `IdentityClient`: the client;
  `SignIns` is the step system of overlapping sign-ins, `BundleOrders` says what they do to the order of the stored
  bundle, `SignOuts` adds a sign-out that runs among them, and `IdentityClient` is the class whose methods do
  the steps of a sign-in.

Where the source updates objects in place (`MemoryKvStore`, `KVStoreClient`, the server's stores,
`ConnInfoPublisher`, `MemoryStorageBackend`, `AviatoPilotClient`) the model is a class, and the methods are
proved against functions on the state; the theorems over runs are about those functions. Time,
randomness, answers of Tower and of media servers, and the order in which the event loop resumes
calls are parameters.

## What the proofs found

- A revocation that lands between a completion's revocation check and its write is overwritten;
  `RevocationSticksExactly` gives the exact condition and `RevocationCanBeLost` a run.
- `completeChallenge` consumes the challenge and then throws when the certificate's expiry is beyond the
  range of dates, because `toISOString` throws after the checks: `CompletionCrashesExactly` says when, and
  `UndatableCompletion` follows an honest client with an expiry of 8640000000001 seconds there.
- The signatures of certificates, sessions, assertions and records are decoded outside the verifiers' try
  blocks. The wire schemas require the base64url alphabet, but a text of that alphabet can have an impossible
  length or stray trailing bits, like `A`; it then throws instead of being reported: `CertThrowsExactly`,
  `SessionThrowsExactly`, `AssertionThrowsExactly` and `RecordThrowsExactly` say exactly when. By
  `BeginCrashesExactly` a begin then throws where it should refuse with status 400, and
  `MalformedSignatureCrashes` is a genuine certificate with its signature replaced by `A`.
- An empty K passes every check of `buildPairingResponse` and of the client bundle, but the recipient's
  schema refuses it: the pairing response and the whole bundle are then unreadable (`KIsDelivered`,
  `BundleIsDelivered`).
- `replaceVaultPayload` and `createVault` accept payloads the vault schema refuses, which then never open
  (`VaultRefinesItsContents`); removing the last passkey leaves an unopenable vault (`LastPasskeyCanBeRemoved`).
- Values of 65509 to 65536 bytes pass the client's size check and then make `sealKvBlob` throw a plain
  error instead of `blob_too_large` (`OversizeExactly`); nothing is stored.
- `signOut` is documented to drop all local state. `SignOutDropsEverythingExactly` says when it does; pairing
  again without a server leaves that server's token (`RepairingLeavesTokens`). A sign-out that starts among
  running sign-ins is sure to leave nothing exactly when it would leave nothing by itself and every sign-in
  still running ends by an exception before its first effect (`SignOutLeavesNothingExactly`); one that still
  waits for its server and is then granted brings its token and its connection back (`GrantOutlivesSignOut`,
  and `GrantCanOutliveSignOut` for such a run).
- Overlapping calls of `ConnInfoPublisher.publish` can all pass the version check before one updates it. The
  published versions keep increasing exactly while at most one call past its guard is on its way to success,
  above all that are published (`OverlapKeepsOrderExactly`); `OverlappingStartsBreak` is a run of two calls.
- `docs/whitepaper.md` line 124 promises that a session's time stamp is within 60 seconds. The code
  (`packages/core/src/assertions/session.ts` lines 124-131) accepts an age of up to 300 seconds and any time
  stamp in the future; the model follows the code, and `StampWindowDiffers` lists the stamps they disagree on.
- A sign-in whose Tower request throws, or whose stored K is not base64url, leaves its server `connecting`
  (`StuckConnectingExactly`).
- The K found for each server does not depend on how the sign-ins interleave, but the order of the entries in
  the stored bundle can. It is the same for every schedule exactly when at most one server brings a fresh K
  (`BundleConfluentExactly`, with `SchedulesDiffer` for the two schedules).

## Model

| member | source | states |
|---|---|---|
| Base64Url.RoundTrip | packages/core/src/crypto/encoding.ts:20-26 | base64url without padding (section 5 of RFC 4648): decoding an encoding gives the bytes back |
| Base64Url.Canonical | packages/core/src/crypto/encoding.ts:20-26 | every string that decodes is the encoding of its bytes, so a byte string has one spelling |
| Base64Url.EncodedLength | packages/core/src/crypto/encoding.ts:20-22 | the encoding has the unpadded length and only alphabet characters |
| Base64Url.Vectors | packages/core/src/crypto/encoding.ts:20-26 | the test vectors of RFC 4648 (section 10) without padding, and the two symbols of the URL-safe alphabet |
| Text.Utf8RoundTrip | packages/core/src/crypto/encoding.ts:8-9 | UTF-8 decoding inverts TextEncoder on every Unicode string |
| Platform.DecodedTextExactly | packages/core/src/crypto/encoding.ts:8-9 | TextDecoder undoes TextEncoder exactly on strings that do not start with a byte order mark |
| Text.KeyLessTotal | packages/tower-sdk/src/kv-store.ts:171 | JavaScript's `<` on strings, by UTF-16 units, is total and asymmetric |
| Text.KeyLessTransitive | packages/tower-sdk/src/kv-store.ts:171 | the order on keys is transitive |
| Text.SurrogatesSortFirst | packages/tower-sdk/src/kv-store.ts:171 | the order is of UTF-16 units, not code points: a character outside the basic plane sorts before U+E000 to U+FFFF |
| Json.ParsePrint | packages/core/src/crypto/encoding.ts:32-38 | JSON.parse inverts the printer on every value with distinct member names and integer numbers |
| Jcs.JcsIdentifies | packages/core/src/crypto/encoding.ts:28-38 | two values with integer numbers have the same canonical bytes exactly when they agree up to the order of members at every depth (sections 3.2.2 and 3.2.3 of RFC 8785) |
| Jcs.ParseJcs | packages/core/src/crypto/encoding.ts:28-38 | the canonical bytes of a value with integer numbers parse to its canonical form |
| Stringified.SortedRecordIsCanonical | packages/core/src/conn-info/publish-sig.ts:3-6 | an object literal of leaves written in key order is byte for byte its own RFC 8785 form |
| Stringified.PlainRecordText | packages/core/src/conn-info/publish-sig.ts:17-24 | the text of a record of plain strings and natural numbers: names and strings quoted, no white space, members in order |
| Keys.KeySpellings | packages/core/src/crypto/keys.ts:9-23 | a string decodes to a key exactly when it is the key's 64-character lowercase hex or its 43-character base64url form |
| Keys.EqualsBytes | packages/core/src/crypto/keys.ts:48-58 | the byte loop decides equality of keys |
| Keys.PublicKeyEquals | packages/core/src/crypto/keys.ts:96-104 | equal exactly for the key's bytes and its two spellings; what does not parse as a key is unequal, not an error |
| Options.TraverseInOrder | packages/client-sdk/src/kv-client.ts:136-197 | the push-or-throw loop: all results in order, or the first failure |
| JsMaps.SizeIsCardinality | packages/tower-sdk/src/kv-store.ts:215-230 | the size of an insertion-ordered map is the number of its keys |
| KvStore.LastItemWins | packages/tower-sdk/src/kv-store.ts:214-247 | in the projected bucket the last item for a key wins and other keys keep their row |
| KvStore.ConflictsAreExactlyTheMismatches | packages/tower-sdk/src/kv-store.ts:191-212 | the reported conflicts are those of the items whose expected checksum differs from the stored one, all of them, in item order |
| KvStore.MismatchComesFirst | packages/tower-sdk/src/kv-store.ts:206-235 | a batch is refused as mismatched exactly when some item mismatches, also when it is over quota |
| KvStore.ReplayIsIdempotent | packages/tower-sdk/src/kv-store.ts:186-256 | an accepted batch without expected checksums is accepted again and changes nothing |
| KvStore.PartitionIsLookup | packages/tower-sdk/src/kv-store.ts:83-111 | getMany followed by the partition answers each position from the bucket itself, also for repeated keys |
| KvHistory.HistoryDeterminesContents | packages/tower-sdk/src/kv-store.ts:186-263 | after any history of batches and deletions by any users a bucket holds exactly its user's last accepted writes that were not deleted since |
| KvHistory.OthersUntouched | packages/tower-sdk/src/kv-store.ts:161-168 | an event leaves the other users' buckets alone, and a refused batch leaves its own alone as well |
| KvHistory.CasChain | packages/tower-sdk/src/kv-store.ts:194-213 | every accepted item with an expected checksum replaced exactly the last accepted write of its key, and that write had the expected checksum |
| KvHistory.QuotaInvariant | packages/tower-sdk/src/kv-store.ts:214-235 | in every reachable state each bucket is within the key and the byte limit |
| KvHistory.RowsAgreeWithCiphertext | packages/tower-sdk/src/kv-store.ts:114-129 | every stored row is filed under its own key and its checksum and size are those of its ciphertext |
| MemoryKvStores.MemoryKvStore.constructor | packages/tower-sdk/src/kv-store.ts:156-159 | the limits default to 10000 keys and 10 MiB, each independently; every bucket starts empty |
| MemoryKvStores.MemoryKvStore.ApplyBatch | packages/tower-sdk/src/kv-store.ts:186-256 | conflicts, then quota on a projected copy, then commit: the answer and the whole new state, and no other user's bucket changes |
| MemoryKvStores.MemoryKvStore.DeleteMany | packages/tower-sdk/src/kv-store.ts:258-263 | exactly the named keys leave the user's bucket |
| MemoryKvStores.MemoryKvStore.GetMany | packages/tower-sdk/src/kv-store.ts:174-184 | the rows that are present, in the order asked, repeats included |
| MemoryKvStores.MemoryKvStore.List | packages/tower-sdk/src/kv-store.ts:170-172 | the rows in strictly increasing key order |
| MemoryKvStores.SortedValues | packages/tower-sdk/src/kv-store.ts:170-172 | the sorted listing is a function of the contents alone, whatever the order of insertion |
| MemoryKvStores.SumSizes | packages/tower-sdk/src/kv-store.ts:226-229 | summing over the values in insertion order gives the sum over the contents |
| MemoryKvStores.MemoryKvStore.Quota | packages/tower-sdk/src/kv-store.ts:265-277 | the number of keys, the sum of sizes and both limits, exactly |
| KvClient.SealOpen | packages/core/src/kv/blob.ts:30-95 | a value seals exactly when key length and nonce + value + tag are within bounds, and it then opens to itself under the same key string |
| KvClient.OpensExactly | packages/core/src/kv/blob.ts:65-95 | what opening reports for any text: `malformed_wire`, `aead_decrypt_failed` or the value, each exactly when |
| KvClient.OpensOnlyUnderItsKey | packages/core/src/kv/aad.ts:10-12 | a sealed blob opens under the key string it was sealed for and, among the associated data tried, under no other |
| KvClient.KeyBindingPlatformExists | packages/core/src/kv/aad.ts:10-12 | that rejection hypothesis is consistent with the laws of the platform |
| KvClient.ChecksumsAgree | packages/core/src/kv/blob.ts:40-52 | the checksum the client computes is the one Tower computes from the bytes it receives |
| KvClient.OversizeExactly | packages/client-sdk/src/kv-client.ts:178-191 | a key is refused exactly unless it has 1 to 256 UTF-16 units; a value is refused as too large exactly above 65536 bytes, and exactly from 65509 to 65536 bytes sealing throws instead |
| KvClient.NewClient | packages/client-sdk/src/kv-client.ts:127-134 | a client exists exactly for a 32-byte key |
| KvClient.KVStoreClient.BatchPut | packages/client-sdk/src/kv-client.ts:176-211 | all items are sealed before anything is sent: a failing item leaves the store as it was, otherwise the store sees the decoded batch |
| KvClient.KVStoreClient.BatchGet | packages/client-sdk/src/kv-client.ts:136-174 | the answers of the store, each opened, in order; the first undecryptable one fails the whole call |
| KvClient.MovedRowFails | packages/client-sdk/src/kv-client.ts:151-163 | a batchGet that finds the ciphertext of one key in the row of another fails with that row's key, unless an earlier answer fails first or the client already holds the checksum |
| KvClient.KVStoreClient.Delete | packages/client-sdk/src/kv-client.ts:213-222 | key lengths first, then the deletion |
| KvClient.KVStoreClient.List | packages/client-sdk/src/kv-client.ts:224-234 | the listing of the store without ciphertexts |
| KvRefinement.StepRefines | packages/client-sdk/src/kv-client.ts:136-234 | one call of any kind keeps the sealed store related to a plain map and answers as the plain map does |
| KvRefinement.SealedStoreRefinesPlainMap | packages/client-sdk/src/kv-client.ts:136-234 | over every run of puts, gets, deletes and listings by any clients sharing K, the sealed store answers exactly like a plain map of plaintexts |
| KvReaders.ReadsSeeLastAcceptedWrite | packages/client-sdk/src/kv-client.ts:136-174 | no get fails to decrypt; each position is answered with the last accepted plaintext, `unchanged` or `absent` |
| KvReaders.PutsAcceptedExactly | packages/client-sdk/src/kv-client.ts:176-211 | a put is accepted exactly when every key has 1 to 256 units, every value at most 65536 - 28 bytes, no expected checksum is stale and the result is within quota |
| KvReaders.RefusedPutsAreInvisible | packages/client-sdk/src/kv-client.ts:176-200 | a put that is not accepted changes neither the store nor what any reader sees |
| KvReaders.UnchangedMeansCacheIsCurrent | packages/client-sdk/src/kv-client.ts:144-151 | an `unchanged` answer means the value cached under that checksum is the stored one, given that the checksums of the run's ciphertexts do not collide |
| Schemas.CertRoundTrip | packages/core/src/schemas/cert.ts:10-25 | the canonical form names every field, and the schema reads back exactly the payloads that meet it |
| Schemas.AssertionRoundTrip | packages/core/src/schemas/assertions.ts:20-48 | the canonical form names every field; its own kind's schema reads back exactly the valid payloads and the other two refuse it |
| Schemas.ResponseRoundTrip | packages/core/src/schemas/conn-info.ts:45-52 | the canonical form names every field, and the schema reads back exactly the payloads that meet it, so not one with an empty K |
| Schemas.ListRoundTrip | packages/core/src/schemas/vault.ts:58-65 | a list reads back exactly when every element does |
| Sessions.BuiltCertVerifies | packages/core/src/cert/verify.ts:33-98 | a certificate the master key signed for its own user fails only on pinning and on the validity window, in that order; a pinned key that is no key throws |
| Sessions.AcceptedCertIsSigned | packages/core/src/cert/verify.ts:33-98 | an accepted certificate was signed by the key it names, for the pinned user if one was given, and is within its window |
| Sessions.BuiltSessionVerifiesExactly | packages/core/src/assertions/session.ts:26-149 | a built session assertion, in whatever member order it arrives, is accepted exactly when the window, server, challenge and age say so, and otherwise fails with the first of these |
| Sessions.AcceptedSessionIsSigned | packages/core/src/assertions/session.ts:98-149 | acceptance implies a certificate signed by its user and a signature of the certificate's client key over these very fields |
| Sessions.CertThrowsExactly | packages/core/src/cert/verify.ts:61-76 | the verifier throws exactly when the payload is well formed and the signature is not base64url, or the signature holds and the pinned key is no key |
| Sessions.CertErrorsExactly | packages/core/src/cert/verify.ts:33-95 | which failure is reported for any certificate with a decodable signature: text, shape, signature, pinned user, window, in that order, each exactly when |
| Sessions.SessionThrowsExactly | packages/core/src/assertions/session.ts:98-143 | the verifier throws exactly when the certificate's verifier does, or when all else passes and the signature is not base64url |
| Sessions.SessionErrorsExactly | packages/core/src/assertions/session.ts:98-149 | which failure is reported for any assertion with decodable signatures: certificate, server, challenge, age, client signature, each exactly when |
| Sessions.StampWindowDiffers | packages/core/src/assertions/session.ts:124-130 | the code and the documented 60-second window disagree exactly on stamps 60 to 300 seconds old or more than 60 seconds ahead |
| Sessions.SignedBytesFixFields | packages/core/src/assertions/session.ts:132-137 | assertions with the same signed bytes agree on certificate, challenge, server and time |
| AuthStores.SessionChallengeStore.Create | packages/server-sdk/src/stores.ts:117-137 | the challenge is the hex form of the random bytes and is the one row added |
| AuthStores.SessionChallengeStore.Consume | packages/server-sdk/src/stores.ts:138-144 | the row is returned and removed in one step |
| AuthStores.IdentityUserStore.UpsertUserEncPubKey | packages/server-sdk/src/stores.ts:152-161 | every row of the user, and no other, takes the new key; rows keep their order |
| CertAuth.BeginChallenge | packages/server-sdk/src/cert-auth.ts:42-72 | certificate, then registered user, then revocation, then a new challenge: the reply and the whole new state |
| CertAuth.CompleteChallenge | packages/server-sdk/src/cert-auth.ts:91-146 | verify, consume, registered user, revocation, expiry date, upsert: the reply and the whole new state at every exit |
| CertAuth.CompletedStoresTheClient | packages/server-sdk/src/cert-auth.ts:120-145 | a completion consumes its challenge and files the client with its certificate's two keys, device and expiry, the registered user's id and the time, touching no other client and no user |
| CertAuth.StoredKeySignedTheSession | packages/server-sdk/src/cert-auth.ts:91-140 | the key stored for a client is the one that signed the accepted assertion, over the challenge consumed, for this server, within five minutes |
| CertAuth.HonestBeginExactly | packages/server-sdk/src/cert-auth.ts:42-75 | what a genuine certificate gets: 400 with the window error, 403 for an unknown user or a revoked client, or the stored challenge |
| CertAuth.HonestCompleteExactly | packages/server-sdk/src/cert-auth.ts:91-145 | what a genuine assertion gets, in any member order: 401, 403 or an exception with its exact reason, before or after its challenge is consumed, or success |
| CertAuth.CompletionCrashesExactly | packages/server-sdk/src/cert-auth.ts:94-140 | a completion throws exactly when the verifier does or when the write is reached with an expiry that is no date, and then its challenge is already gone |
| CertAuth.UndatableCompletion | packages/server-sdk/src/cert-auth.ts:108-140 | an honest completion with an expiry one second past the last date ends in an exception with its challenge consumed |
| CertAuth.BeginCrashesExactly | packages/server-sdk/src/cert-auth.ts:42-50 | a begin throws, changing nothing, exactly for a well-formed certificate whose signature does not decode |
| CertAuth.MalformedSignatureCrashes | packages/server-sdk/src/cert-auth.ts:42-50 | `A` is of the base64url alphabet, and a genuine certificate carrying it as its signature makes begin throw |
| CertAuth.HonestHandshake | packages/server-sdk/src/cert-auth.ts:42-145 | a registered client that answers its challenge within five minutes completes, is stored under the very key it signed with, and a replay is refused |
| CertAuth.RevocationIsFinal | packages/server-sdk/src/cert-auth.ts:59-140 | for calls that do not overlap: after a revocation no call for the client succeeds and no call clears the flag, over any run |
| CertAuth.RevokeExactly | packages/server-sdk/src/stores.ts:101-109 | revoking takes effect exactly on clients the store knows |
| AuthRuns.UninterruptedBeginIsAtomic | packages/server-sdk/src/cert-auth.ts:42-72 | the awaits of an uninterrupted begin add up to the whole call |
| AuthRuns.UninterruptedCompleteIsAtomic | packages/server-sdk/src/cert-auth.ts:91-146 | the awaits of an uninterrupted complete add up to the whole call |
| AuthRuns.ChallengesAreSingleUse | packages/server-sdk/src/cert-auth.ts:91-115 | however calls, expiries and revocations interleave, the successful completions of a challenge, plus one if it is still stored, never exceed its creations |
| AuthRuns.OnlyVerifiedAssertionsTakeChallenges | packages/server-sdk/src/cert-auth.ts:92-109 | a challenge leaves the store exactly when its timer fires or an assertion over it verifies; a failed verification removes none |
| AuthRuns.RevocationSticksExactly | packages/server-sdk/src/cert-auth.ts:124-140 | a revocation survives every continuation exactly when no completion for the client stands between its revocation check and its write |
| AuthRuns.RevocationCanBeLost | packages/server-sdk/src/cert-auth.ts:124-140 | every successful completion of a known client passes through such a moment, and a revocation there is overwritten |
| AuthRuns.NoSuccessAfterRevocation | packages/server-sdk/src/cert-auth.ts:59-140 | after a revocation no call for the client succeeds in any continuation exactly when none stands between its revocation check and a step that takes effect |
| VaultPayloads.VaultRoundTrip | packages/core/src/schemas/vault.ts:48-67 | the vault schema reads back exactly the payloads that meet it |
| Vault.WrapOpens | packages/tower-sdk/src/vault.ts:75-94 | a wrapped vault key unwraps under the wrapping key it was made with |
| Vault.UnwrapsExactly | packages/tower-sdk/src/vault.ts:75-94 | what unwrapping reports for any wrap: an exception for undecodable text or a key of the wrong length, null when it does not open, or the key |
| Vault.BodyOpens | packages/tower-sdk/src/vault.ts:99-124 | an encrypted payload decrypts to itself, or to nothing when the schema refuses it |
| Vault.ChangeRefines | packages/tower-sdk/src/vault.ts:216-249 | adding, removing and replacing keep the blob a faithful image of (passkey to wrapping key, payload) |
| Vault.VaultRefinesItsContents | packages/tower-sdk/src/vault.ts:135-249 | over any run of changes, an enrolled passkey's latest key opens the latest payload and the same vault key, and any other passkey finds no wrap |
| Vault.OnlyTheLatestKeyOpens | packages/tower-sdk/src/vault.ts:171-249 | over any run of changes, an enrolled passkey opens under its latest wrapping key, and under any other key tried, superseded ones included, reports `unwrap_failed` |
| Vault.LastPasskeyCanBeRemoved | packages/tower-sdk/src/vault.ts:231-237 | removing the last passkey leaves an empty list of wraps and a vault nobody opens |
| Vault.SaltsAreKept | packages/tower-sdk/src/vault.ts:212-229 | over any run each wrap carries the salt its passkey was last enrolled with |
| Vault.TimesAreKept | packages/tower-sdk/src/vault.ts:219-249 | the time of creation stays and the update time is that of the last change |
| SealedBoxes.EncryptWithSelfCheck | packages/core/src/crypto/sealedbox.ts:86-111 | the box is returned only if it decrypts to the plaintext under the key it was made with |
| SealedBoxes.SelfCheckIsSound | packages/core/src/crypto/sealedbox.ts:82-111 | with lawful primitives the self-check never fires; with any, what passes it decrypts for whoever derives the same secret |
| SealedBoxes.BoxRoundTrip | packages/core/src/crypto/sealedbox.ts:73-140 | the holder of the recipient's private key reads the plaintext |
| SealedBoxes.HandleAgrees | packages/core/src/crypto/sealedbox.ts:164-187 | decrypting through a key handle equals decrypting with the raw key |
| PairingAssertions.BuiltAssertionVerifiesExactly | packages/core/src/assertions/master-signed.ts:35-165 | a built assertion passes exactly when kind, server, request, user, distinct keys and age match, and otherwise fails with the first that does not |
| PairingAssertions.AcceptedAssertionIsSigned | packages/core/src/assertions/master-signed.ts:79-165 | an accepted assertion matches every expectation and is signed, over the bytes it was read from, by the master key it names |
| PairingAssertions.AssertionErrorsExactly | packages/core/src/assertions/master-signed.ts:79-165 | which failure is reported for any assertion with a decodable signature, in order: text, shape or kind, server, request, user, signature, encryption key, age, each exactly when |
| PairingAssertions.AssertionThrowsExactly | packages/core/src/assertions/master-signed.ts:97-141 | with proper expected keys the verifier throws exactly when everything before the signature passes and the signature is not base64url |
| PairingAssertions.WrongKindIsNeverReported | packages/core/src/assertions/master-signed.ts:95-110 | the schema already fixes the kind, so the explicit kind check never fires |
| PairingResponses.BuildSigMessage | packages/core/src/conn-info/pairing-response.ts:16-31 | the buffer holds the hex key followed by the JSON of the box |
| PairingResponses.SigMessageDecodes | packages/core/src/conn-info/pairing-response.ts:16-31 | a reader recovers the server key and the box from the signed bytes |
| PairingResponses.SigMessageInjective | packages/core/src/conn-info/pairing-response.ts:16-31 | the signed bytes determine the server key and the box |
| PairingResponses.AssertValidRecipient | packages/core/src/conn-info/pairing-response.ts:54-80 | the loops accept exactly 32-byte keys that are not all zero and not the server's own |
| PairingResponses.BuildPairingResponse | packages/core/src/conn-info/pairing-response.ts:82-124 | every refusal of the builder, and otherwise the signed sealed box |
| PairingResponses.BuildsExactly | packages/core/src/conn-info/pairing-response.ts:82-130 | a response is built exactly for a recipient key that is one, is not all zeros, not the server's, the one asserted, not the user's master key, and not degenerate |
| PairingResponses.OpenPairingResponse | packages/core/src/conn-info/pairing-response.ts:143-210 | keys, signature, recipient, decryption, JSON, schema and inner server, in this order; keys of the wrong length throw where they are read |
| PairingResponses.AcceptedResponseIsSigned | packages/core/src/conn-info/pairing-response.ts:143-210 | what is opened was signed by the expected server over this very box, is for the expected recipient, decrypts under the private key given and names that server inside |
| PairingResponses.OpenErrorsExactly | packages/core/src/conn-info/pairing-response.ts:143-210 | which failure is reported, in order: signature, recipient, decryption, JSON, shape, inner server, each exactly when |
| PairingResponses.OpenThrowsExactly | packages/core/src/conn-info/pairing-response.ts:143-155 | with proper keys opening throws exactly when the signature is not base64url |
| KDelivery.KIsDelivered | packages/server-sdk/src/pairing.ts:135-191 | for all three kinds and any approved envelope: if the service responds, the holder of the assertion's encryption key opens exactly the K that was sent, from the same server; only an empty K arrives unreadable |
| KDelivery.DeliveredIsK | packages/core/src/conn-info/pairing-response.ts:103-112 | the delivered text decodes to K |
| KDelivery.RespondsExactly | packages/server-sdk/src/pairing.ts:135-191 | an assertion the user built is answered exactly when it is for this request, kind and server, by the pinned user of a sign-in, not too old, and its encryption key can receive |
| KDelivery.AnsweredIsTheRequestAsked | packages/server-sdk/src/pairing.ts:161-193 | whatever envelope is answered names this request, its kind and this server, for a sign-in the pinned user, is not too old, and was signed by the user key it names |
| KDelivery.VerifiesForFiveMinutes | packages/server-sdk/src/verify.ts:97-127 | `verifyAndPersist` accepts an assertion the user built exactly for the given request, kind and server and up to five minutes old, and hands on its keys and user id |
| KDelivery.VerifyAndPersist | packages/server-sdk/src/verify.ts:97-127 | a verified link or sign-in rotates the registered user's encryption key; an operator link or a failure touches nothing |
| KDelivery.PersistingRotatesOneUser | packages/server-sdk/src/verify.ts:117-125 | only encryption keys change, only in rows of the verified user's id, and only to the verified key |
| KDelivery.Start | packages/server-sdk/src/pairing.ts:68-103 | a server link is for an invitation or for an existing user, never both or neither; a refused start stores nothing |
| KDelivery.PairingRequestStore.Consume | packages/server-sdk/src/stores.ts:81-87 | the request row is returned and removed in one step |
| ClientBundles.BundleIsDelivered | packages/tower-sdk/src/client-pair.ts:80-97 | the app opens exactly the ticked servers whose K has arrived, in order, unless one K is empty, which spoils the bundle |
| ClientBundles.UsableAre | packages/tower-sdk/src/client-pair.ts:81-87 | an entry is in the bundle exactly when it comes from a ticked server with a K |
| ClientBundles.UsableInOrder | packages/tower-sdk/src/client-pair.ts:80-97 | the bundle lists its servers in the order they were ticked |
| ClientBundles.UsableOne | packages/tower-sdk/src/client-pair.ts:80-97 | each server brings its own key and K, or nothing while its K has not arrived |
| ClientBundles.BundleErrorsExactly | packages/core/src/conn-info/client-bundle.ts:41-59 | which failure opening reports, exactly when; JSON null counts as not decrypted |
| ClientBundles.BundleRoundTrip | packages/core/src/schemas/conn-info.ts:70-83 | the bundle schema reads back exactly the bundles that meet it |
| ClientBundles.PairCertVerifies | packages/tower-sdk/src/client-pair.ts:41-65 | the delegation certificate verifies for its user from issue to expiry with the skew on both sides |
| ClientBundles.PairCertSays | packages/tower-sdk/src/client-pair.ts:41-72 | the accepted certificate carries the app, the device and its two keys, the user and his two keys, and runs sixty days unless told otherwise |
| ConnInfos.U64BE | packages/core/src/crypto/encoding.ts:45-53 | the shifting loop writes the eight low base-256 digits, most significant first |
| ConnInfos.U64Value | packages/core/src/crypto/encoding.ts:45-53 | for every integer, negative ones included, the bytes are its value modulo 2^64 |
| ConnInfos.U64Injective | packages/core/src/crypto/encoding.ts:45-53 | safe integers have distinct encodings |
| ConnInfos.AadInjective | packages/core/src/conn-info/aad.ts:7-15 | the associated data determines the server key and the version |
| ConnInfos.CanonicalIsJcs | packages/core/src/conn-info/publish-sig.ts:17-24 | the hand-written signed bytes are the RFC 8785 form of the four-member object |
| ConnInfos.CanonicalIsText | packages/core/src/conn-info/publish-sig.ts:17-24 | the signed bytes written out, character by character |
| ConnInfos.CanonicalDecodes | packages/core/src/conn-info/publish-sig.ts:17-24 | a reader recovers the four fields from the signed bytes |
| ConnInfos.CanonicalInjective | packages/core/src/conn-info/publish-sig.ts:17-24 | the signed bytes determine ciphertext, nonce, server key and version |
| ConnInfoPayloads.ConnRoundTrip | packages/core/src/schemas/conn-info.ts:9-18 | the payload schema reads back exactly the payloads that meet it, with `paths` sorted by name |
| ConnInfos.SealOpens | packages/core/src/conn-info/seal.ts:30-113 | a sealed record opens to its payload, never to a rotation mismatch, and its signature verifies |
| ConnInfos.OpensOnlyInItsSlot | packages/core/src/conn-info/seal.ts:73-86 | moved to another server key or version of the run a sealed record fails to decrypt, given that among the associated data of the run its ciphertext opens under its own only |
| ConnInfos.SealedOpensExactlyInItsSlot | packages/core/src/conn-info/seal.ts:30-113 | in every slot of the run, what a server sealed opens to its payload in its own slot and fails to decrypt in any other |
| ConnInfos.BindingPlatformExists | packages/core/src/conn-info/seal.ts:73-86 | that assumption is consistent with the laws of the primitives, for any record and any associated data tried |
| ConnInfos.RecordThrowsExactly | packages/core/src/conn-info/verify.ts:13-21 | for a record that passed the wire schema the check throws exactly when the signature is not base64url |
| ConnInfos.RecordSignatureExactly | packages/core/src/conn-info/verify.ts:13-21 | the signature check says whether the server key in the record signed its canonical bytes |
| ConnInfos.OpensExactly | packages/core/src/conn-info/seal.ts:73-113 | what opening reports for any record: decryption, then shape, then the rotation counter, each exactly when |
| ConnInfos.ResolvesExactly | packages/client-sdk/src/server-conninfo.ts:47-84 | what each answer of Tower resolves to, exactly: no record, a record its server did not sign, one that does not decrypt under K, one with refused content, or a payload that was signed |
| ConnInfos.SignatureVerifies | packages/core/src/conn-info/verify.ts:13-21 | a record signed by the server verifies against the key embedded in it |
| ConnInfos.ResolvesWhatWasSealed | packages/client-sdk/src/server-conninfo.ts:44-82 | a client that holds K resolves what the server sealed |
| ConnInfoPublishers.ConnInfoPublisher.Publish | packages/server-sdk/src/conn-info-publisher.ts:47-74 | the guards, the seal and the post in order; the last version advances exactly on success |
| ConnInfoPublishers.PublishesExactly | packages/server-sdk/src/conn-info-publisher.ts:47-74 | a publish goes through exactly for a non-negative version above the last, keys and nonce of the right length and an accepted post, and carries its version |
| ConnInfoPublishers.PublishedVersionsIncrease | packages/server-sdk/src/conn-info-publisher.ts:33-74 | over any calls that do not overlap, with failures anywhere, the versions published go strictly up |
| ConnInfoPublishers.SealedRecordsOpen | packages/server-sdk/src/conn-info-publisher.ts:60-70 | every sealed record, posted or not, opens to the payload it numbers; no rotation mismatch occurs |
| ConnInfoPublishers.RetryAfterFailedPost | packages/server-sdk/src/conn-info-publisher.ts:71-73 | a failed post changes nothing, so the same version can be tried again |
| PublisherRuns.UninterruptedIsAtomic | packages/server-sdk/src/conn-info-publisher.ts:47-74 | guard, sealing and post with nothing in between are the whole call: same outcome, same last version |
| PublisherRuns.OverlapKeepsOrderExactly | packages/server-sdk/src/conn-info-publisher.ts:47-74 | however the calls in flight go on, the versions published keep increasing exactly when at most one of them is past its guard and will succeed, and it is above all that are published |
| PublisherRuns.OverlappingStartsBreak | packages/server-sdk/src/conn-info-publisher.ts:53-73 | two calls started together for good posts both pass the guard and publish out of order |
| ClientStorage.WithKeyLooksUp | packages/client-sdk/src/storage.ts:146-153 | setting the K of one server sets that one and no other, moves it to the end, and keeps the issue time of the bundle |
| ClientStorage.MemoryStorageBackend.UpsertServerKey | packages/client-sdk/src/storage.ts:146-153 | the entry is replaced and moved to the end; a missing bundle is created |
| ClientStorage.MemoryStorageBackend.SetServerToken | packages/client-sdk/src/storage.ts:159-165 | one token is set or removed |
| SignIns.InterleavingIsInvisible | packages/client-sdk/src/identity-client.ts:387-521 | after any interleaving each sign-in stands where its own turns alone would have brought it |
| SignIns.SignInsAreConfluent | packages/client-sdk/src/identity-client.ts:527-542 | every complete interleaving of the sign-ins ends in the same settled state, connection order included, and touches nothing else |
| SignIns.SettledStatesAgree | packages/client-sdk/src/identity-client.ts:527-542 | a settled state is unique: same connections in the same order, same token and same K for every server |
| SignIns.FairSchedulesFinish | packages/client-sdk/src/identity-client.ts:387-521 | six turns each finish every sign-in |
| SignIns.SiblingsDoNotMatter | packages/client-sdk/src/identity-client.ts:533-541 | whatever happens at other servers, a server ends with the same status, token and K |
| SignIns.SignInEnds | packages/client-sdk/src/identity-client.ts:387-521 | what a sign-in leaves behind, status by status, for every answer of Tower and the server; a thrown error leaves the server `connecting` |
| SignIns.TowerAnswerShows | packages/client-sdk/src/identity-client.ts:416-436 | no record shows `offline`, a record that does not decrypt `stale_k`, a bad server signature and refused content their own errors; token and K stay |
| SignIns.RotatedKIsStale | packages/client-sdk/src/identity-client.ts:424-425 | a client with an older K, under which the server's record is rejected, is told that its K is stale and keeps what it has |
| SignIns.StuckConnectingExactly | packages/client-sdk/src/identity-client.ts:410-422 | a server is left `connecting` exactly when its stored K is not base64url or the request to Tower throws |
| BundleOrders.BundleConfluentExactly | packages/client-sdk/src/identity-client.ts:504-542 | for distinct servers, all complete schedules store the same bundle exactly when at most one server brings a fresh K |
| BundleOrders.CompleteBundle | packages/client-sdk/src/storage.ts:146-153 | with at most one fresh K every complete schedule ends in the old bundle, or in it with that server moved to the end with its new K |
| BundleOrders.SchedulesDiffer | packages/client-sdk/src/identity-client.ts:504-542 | two servers with fresh Ks: a complete schedule for each of them that leaves it last in the stored bundle |
| SignOuts.UndisturbedSignOut | packages/client-sdk/src/identity-client.ts:590-605 | with no sign-in in between, the turns of a sign-out add up to it |
| SignOuts.SignOutLeavesNothingExactly | packages/client-sdk/src/identity-client.ts:590-605 | for a sign-out that starts among sign-ins: every interleaving leaves nothing exactly when, as it starts, the sign-out by itself would leave nothing and every sign-in still running ends by an exception before its first effect |
| SignOuts.DecidedWhenItEnds | packages/client-sdk/src/identity-client.ts:590-605 | however a sign-out ran, what is left in the end is decided by what was stored as it ended and by the sign-ins then running |
| SignOuts.GrantOutlivesSignOut | packages/client-sdk/src/identity-client.ts:464-516 | a sign-in that waits for its server when a sign-out has ended, and is then granted, brings its token and its connection back, however the rest is scheduled |
| SignOuts.GrantCanOutliveSignOut | packages/client-sdk/src/identity-client.ts:464-516 | every sign-out that starts while a sign-in waits to be granted has a run in which it outlives the sign-out |
| SignIns.PublishedServerComesOnline | packages/client-sdk/src/identity-client.ts:410-521 | a client that holds the K a record was sealed under, and is granted the session, ends online at `protocol://host:port` as published, with the new token and the freshest K |
| SignIns.StepsFrame | packages/client-sdk/src/identity-client.ts:145-151 | sign-ins overwrite entries in place: none is added, dropped or moved, and each stays filed under its own key |
| IdentityClients.AviatoPilotClient.Emit | packages/client-sdk/src/identity-client.ts:134-143 | each listener, in order, gets one new snapshot that lists the map's values in insertion order |
| IdentityClients.AviatoPilotClient.SetStatus | packages/client-sdk/src/identity-client.ts:145-151 | one connection is set and the snapshot is current again |
| IdentityClients.AviatoPilotClient.GetConnections | packages/client-sdk/src/identity-client.ts:157-162 | the cached object comes back as long as nothing changed |
| IdentityClients.AviatoPilotClient.Hydrate | packages/client-sdk/src/identity-client.ts:173-188 | with an identity the connections become the bundle's servers, idle; without one nothing changes |
| IdentityClients.SeededLists | packages/client-sdk/src/identity-client.ts:179-185 | seeding lists the bundle's servers in the bundle's order, all idle |
| IdentityClients.AviatoPilotClient.FinalizePair | packages/client-sdk/src/identity-client.ts:295-380 | either every check passes, identity, bundle and connections are replaced and each listener hears of it once, or nothing changes and no listener is called |
| IdentityClients.PairingSetsUp | packages/client-sdk/src/identity-client.ts:366-379 | a paired device lists the servers of its bundle idle and in order, finds their Ks and keeps every token it had |
| IdentityClients.AviatoPilotClient.PollPair | packages/client-sdk/src/identity-client.ts:262-293 | one poll: abort, request, state, or the finalized pairing |
| IdentityClients.PollsExactly | packages/client-sdk/src/identity-client.ts:262-293 | a poll pairs exactly when it was not aborted and Tower hands out what this device can pair with, and only reports while the user decides or declines |
| IdentityClients.AviatoPilotClient.AwaitPairing | packages/client-sdk/src/identity-client.ts:224-242 | the polling loop finalizes at most one pairing, that of the first round that decides, and listeners hear of it once; a cancelled, aborted, failed or exhausted loop changes nothing |
| IdentityClients.AwaitsExactly | packages/client-sdk/src/identity-client.ts:224-258 | the loop pairs exactly when the first round that decides, within the attempts, was not stopped and completes |
| IdentityClients.FirstDecisiveIsFirst | packages/client-sdk/src/identity-client.ts:225-240 | the deciding round is the least one that is cancelled, aborted or answered with anything but wait |
| IdentityClients.AviatoPilotClient.ResumeSignIn | packages/client-sdk/src/identity-client.ts:395-520 | the code between two awaits does exactly one turn of the sign-in, and listeners are called exactly when it reports a status |
| IdentityClients.AviatoPilotClient.InitializeAllConnections | packages/client-sdk/src/identity-client.ts:527-542 | for any order in which the event loop resumes the sign-ins the state is that of the step system, settled once all are done, and listeners have heard of every start and every reported status with the connections of that moment |
| IdentityClients.AviatoPilotClient.RenewCertIfNeeded | packages/client-sdk/src/identity-client.ts:548-587 | each exit of the renewal and the identity it leaves, with the clock read before and after Tower is asked |
| IdentityClients.AviatoPilotClient.SignOut | packages/client-sdk/src/identity-client.ts:590-605 | identity, bundle, connections and the tokens of the bundle's servers are dropped |
| StoredIdentities.HonestPairing | packages/client-sdk/src/identity-client.ts:295-380 | an honest certificate and bundle pair the device exactly unless a K is empty: it then holds both its private keys, its user and dates, the certificate, and the ticked servers whose K has arrived |
| StoredIdentities.PairsExactly | packages/client-sdk/src/identity-client.ts:310-366 | a device pairs exactly with a certificate that verifies, names both its public keys and its app, and a bundle it can open; each private key is stored in its own field |
| StoredIdentities.EveryKIsFound | packages/tower-sdk/src/client-pair.ts:80-97 | a paired device finds the K of every server that was ticked |
| StoredIdentities.PairedDeviceSignsIn | packages/client-sdk/src/identity-client.ts:438-486 | a session signed with the stored key over the stored certificate is judged by window, server, challenge and age alone |
| StoredIdentities.RenewalExactly | packages/client-sdk/src/identity-client.ts:548-588 | nothing is asked while more than the given days remain; a certificate of the stored user in its window replaces the stored one and its dates; any other genuine one is refused and changes nothing |
| StoredIdentities.RenewalReportsExactly | packages/client-sdk/src/identity-client.ts:548-588 | which result each answer of Tower leads to, and that only a success changes the identity |
| StoredIdentities.IdentityInvariant | packages/client-sdk/src/identity-client.ts:309-366 | over any run of pairing, renewal and signing out the identity is null or its user, expiry and issue date are those of the signed certificate it carries |
| StoredIdentities.RenewalsKeepTheUser | packages/client-sdk/src/identity-client.ts:569-579 | no number of renewals changes the user |
| StoredIdentities.NotNeededIsNotExpired | packages/client-sdk/src/identity-client.ts:553-556 | `not-needed`, for a non-negative number of days, means the stored certificate is not expired at that instant |
| IdentityClients.RepairingLeavesTokens | packages/client-sdk/src/identity-client.ts:366-378 | after pairing again without a server that was signed in to, signing out leaves its token |
| StoredIdentities.SignOutDropsEverythingExactly | packages/client-sdk/src/identity-client.ts:589-605 | signing out leaves nothing behind exactly when there is no token, or there is an identity and every token belongs to a server of the current bundle |

## Left out

- HTTP clients, response parsing, error classes and headers: the client and the store are connected by direct calls.
- React provider and hooks, `subtle-crypto-storage.ts`, `LocalStorageBackend`, the handle-based key path of the client: only the in-memory backend and raw keys are modelled.
- Zod and regular-expression internals: each schema is modelled by what it accepts.
- Json.ParsePrint: the numbers of the model are integers, as in every signed or sealed record; fractions and exponents are refused.
- Jcs.JcsIdentifies: integer numbers only, so the number form of RFC 8785 (section 3.2.2.3) is not covered.
- Jcs.ParseJcs: integer numbers only, as above.
- JSON text with fractions or exponents, lone surrogates and surrogate-pair escapes: the JSON reader treats them as malformed; integer-like member names and `__proto__` are not treated specially.
- Error texts and the trimming of URLs.
- `MemoryPairedClientStore`, revocation envelopes, the branding of verified assertions, the listing of clients: easy members; a verified assertion is a value only the verifiers produce.
- Unsubscribing, listeners that call back into the client, and listener exceptions: a listener call is recorded, not run.
- KvRefinement.SealedStoreRefinesPlainMap: assumes 12-byte nonces, which `crypto.getRandomValues(new Uint8Array(12))` gives.
- IdentityClients.AviatoPilotClient.FinalizePair: its two storage writes are one step, so a crash between them is not modelled.
- SignIns.SignInsAreConfluent: assumes the bundle names each server once; the order of the entries inside the stored bundle is the subject of `BundleOrders.BundleConfluentExactly`.
- BundleOrders.BundleConfluentExactly: assumes that too.
- ConnInfoPublishers.PublishedVersionsIncrease: for calls that do not overlap; `PublisherRuns.OverlapKeepsOrderExactly` states what holds when they do.
- ConnInfos.OpensOnlyInItsSlot: assumes rejection only for the associated data tried in one run.
- KvClient.OpensOnlyUnderItsKey: assumes rejection of this ciphertext only, under the associated data tried.
- SignIns.RotatedKIsStale: assumes that the record is rejected under the older K.
- SignOuts.SignOutLeavesNothingExactly: one sign-out, over sign-ins to distinct servers, all started before it.
- CertAuth.RevocationIsFinal: for calls that do not overlap; `AuthRuns` states what holds when they do.
- AuthStores.SessionChallengeStore.Create: the timer is an action of the environment that may fire at any moment, not after a fixed delay.
- Vault.OnlyTheLatestKeyOpens: assumes rejection only for the wraps of one run and the keys tried on them; `Vault.KeyBindingPlatformExists` shows that consistent.
