# Verified model of the payment-settled access pass

The project models the services that turn a payment into a signed access pass, and the offline gate
that checks the pass. It proves what these services keep over every run and every input.

| part | modules |
|---|---|
| bytes, UTF-8, base64, JSON | `Bytes`, `Base64`, `Json`, `JsonRoundTrip`, `JsonGrammar`, `JsonText`, `JsonFields` |
| tokens and the gate | `Signing`, `CompactToken`, `SignedToken`, `OlderTokens`, `Issuance`, `Trimming`, `Gate` |
| Lightning settlement | `Settlement`, `SettlementRuns`, `SettlementHistory`, `SettlementSpec`, `SettlementConfluence` |
| Stellar sessions and watcher | `Horizon`, `PaymentStore`, `Watcher`, `WatcherRuns`, `WatcherPayments`, `WatcherPass`, `WatcherExpiry` |
| both services up to the gate | `PaymentToGate` |
| browser client | `ApiClient` |

`dafny verify dfyconfig.toml` checks everything.

## How it is modelled

**Lightning settlement.** The service keeps `sessions` and `payment_index` under two locks. Each critical
section is one function on a `Store`; the class `ProofService` runs the same sections on its fields.
`SettlementRuns` interleaves any number of creations and payment events, each task with a program counter,
one critical section to a step. `SettlementSpec` gives the atomic specification, a table of open invoices
and a set of settled hashes, and shows that every interleaving is one of its runs.

**Stellar sessions.** `PaymentService` holds the session map, and `Watcher.Pass` is the watcher's loop over one
snapshot. `WatcherRuns` interleaves request creation, a clock that never goes back, a growing ledger and the
watcher, whose lookup and marking of one session are separate steps and may fail.

**Tokens.** A string is the sequence of its bytes, and `Text` is a byte sequence that is valid UTF-8. The JSON
tree keeps the literals of strings and numbers, because the parser checks the syntax of a member it ignores but
never decodes it. Struct reading follows the derived code of `serde`: members in any order, unknown members
ignored, repeated fields rejected, defaults for the marked fields, an array in declaration order also accepted.
Base64 follows sections 3.5, 4 and 5 of RFC 4648, JSON follows RFC 8259, UTF-8 follows RFC 3629.

Assumptions, all of them visible as guards or hypotheses:

- Random invoice ids, payment hashes of the gateway and memos are not drawn twice (`Enabled`).
- A signature made by the signing key is accepted by its verifying key, and signing is deterministic
  (`Signing.KeyPair`). Nothing is assumed about rejecting other signatures.
- QR rendering is a function of its payload that may fail.
- One watcher runs, and its clock never goes back; also not while it takes a snapshot.
- `now + expiry` wraps around, as in a release build.

## What the proofs found

- An event for a stored invoice can be lost: if it is read between the two inserts of `create_invoice`, it is
  dropped and the invoice stays pending (`SettlementHistory.EarlyEventIsLost`). An invoice is settled exactly when
  some event took effect after its index insert and its token can be rendered
  (`SettlementSpec.InvoiceSettledExactly`); in particular no event is lost that comes after the index insert
  (`SettlementHistory.LaterEventSettles`). The payer learns the invoice from the response, which is made after both
  inserts, so an event can only be early when the hash was paid without that response.
- An expired session can still become confirmed, exactly while it is in the unprocessed part of the watcher's
  snapshot (`WatcherExpiry.ExpiredConfirmsExactlyInBatch`); such states are reached
  (`WatcherExpiry.ExpiredStillConfirmed`).
- The two formats disagree at the instant `expires_at`: the signed JSON token is no longer valid then, the compact
  token still is (`Gate.IssuedTokenAtGate`, `Gate.CompactTokenAtGate`).
- The error after the client's retry loop, "Request failed after the maximum retry count", is returned only for a
  negative retry count (`ApiClient.Request`).
- The README of the repository says that older token shapes can coexist through the optional `payment_hash` field.
  They read, but verification serialises all eleven fields again, so a signature made over fewer fields is over
  another text (`OlderTokens.FewerFieldsOtherText`), and such a token is accepted exactly when the key takes that
  signature for one over the eleven fields (`OlderTokens.OlderAcceptedExactly`, `OlderTokens.LightningShapeVerdict`).

## Model

| member | source | states |
|---|---|---|
| `SettlementSpec.ServiceRefinesLedger` | crates/lightning_node/src/layers/proof.rs:126-247 | every run of the two-lock service, however creations and event handlers interleave, is a run of an atomic specification that opens an invoice and settles a hash at once; every indexed session is its invoice, settled or not as the specification says, and every other session is as created, with its creator about to index it |
| `SettlementSpec.StepRefines` | crates/lightning_node/src/layers/proof.rs:163-246 | each critical section is its effect on the specification: a creation takes effect at the index insert, an event at the sessions lock when its hash was found and at the index read when it was not, and nothing else changes the meaning of the store |
| `SettlementSpec.EventsTakeEffectOnce` | crates/lightning_node/src/layers/proof.rs:204-247 | a handler that finishes in a run takes effect exactly once in its trace, with the hash of its own event; a handler that does not finish in it takes no effect |
| `SettlementSpec.SettledExactly` | crates/lightning_node/src/layers/proof.rs:204-247 | a hash of the specification is settled if and only if some event paid it while its invoice was open and its token could be rendered |
| `SettlementSpec.InvoiceSettledExactly` | crates/lightning_node/src/layers/proof.rs:163-246 | after any run an indexed invoice is settled if and only if some event for its hash took effect after its index insert and its token can be rendered |
| `SettlementConfluence.Confluence` | crates/lightning_node/src/layers/proof.rs:204-247 | two runs of events from the same reachable state that deliver the same set of hashes, in any order, with repetitions and any interleaving of handlers, end in the same store |
| `SettlementConfluence.OutcomeOfEvents` | crates/lightning_node/src/layers/proof.rs:204-247 | that store is the earlier one with exactly the indexed, pending and renderable sessions of the delivered hashes settled, each with its own token |
| `SettlementHistory.IndexAgreement` | crates/lightning_node/src/layers/proof.rs:163-170 | in every reachable state an index entry leads to the session with that hash; a session is missing from the index exactly while its creator is between its two inserts; a handler holding an id finds its session and signs the hash of that session |
| `SettlementHistory.SettledForever` | crates/lightning_node/src/layers/proof.rs:182-198 | once a status read reports an invoice settled, every later read gives the identical response, and an invoice that was found is always found |
| `SettlementHistory.StatusReadExactly` | crates/lightning_node/src/layers/proof.rs:182-198 | in every reachable state, an unknown id is not found; a pending invoice reports pending and nothing else; a settled one reports settled with the compact token of its payment hash, expiry and event, and the PNG and ASCII forms of that token, each in its own field |
| `SettlementHistory.SettledHoldsItsToken` | crates/lightning_node/src/layers/proof.rs:219-237 | in every reachable state a session has its token and both QR forms exactly when it is settled, and they are those of its own payment hash and expiry |
| `SettlementHistory.FoundEventSettles` | crates/lightning_node/src/layers/proof.rs:214-237 | an event whose hash was found in the index leaves its invoice settled when its handler ends, whichever handler came first, exactly when the token can be rendered |
| `SettlementHistory.LaterEventSettles` | crates/lightning_node/src/layers/proof.rs:167-237 | once an invoice is indexed, every event for its hash whose handler starts later, or has yet to read the index, leaves the invoice settled when it ends exactly when the token can be rendered |
| `SettlementHistory.EarlyEventIsLost` | crates/lightning_node/src/layers/proof.rs:163-170 | from every reachable state, an event for the next invoice may be read between the two inserts of its creation; it is then dropped, and the invoice ends indexed and pending |
| `SettlementRuns.StepKeepsInv` | crates/lightning_node/src/layers/proof.rs:163-246 | every atomic step keeps the agreement of the two maps with each other and with all tasks in flight, and keeps every session as created or settled for its own hash |
| `SettlementRuns.RunKeepsInv` | crates/lightning_node/src/layers/proof.rs:163-246 | every run keeps that invariant |
| `Settlement.ProofService.constructor` | crates/lightning_node/src/layers/proof.rs:111-120 | a new service has no sessions and no index entries |
| `Settlement.ProofService.CreateInvoice` | crates/lightning_node/src/layers/proof.rs:126-180 | fails, changing nothing, exactly when the expiry does not fit 32 bits, the gateway fails or a QR code cannot be rendered; otherwise the invoice is stored pending, found by its hash, reported to the caller as stored, and every other session and entry is as before |
| `Settlement.ProofService.StoreSession` | crates/lightning_node/src/layers/proof.rs:163-166 | the section under the lock of the sessions inserts the session and nothing else |
| `Settlement.ProofService.StoreIndex` | crates/lightning_node/src/layers/proof.rs:167-170 | the section under the lock of the index adds the entry and nothing else |
| `Settlement.ProofService.ReadIndex` | crates/lightning_node/src/layers/proof.rs:205-208 | reads the id indexed under a hash, none exactly when the hash is not indexed |
| `Settlement.ProofService.SettleUnderLock` | crates/lightning_node/src/layers/proof.rs:214-246 | a pending session whose token fits both QR forms gets the status, the token over the hash, its expiry and the event, and each form in its field; every other session, and the store in every other case, is as before; an error is returned exactly for a pending session that cannot be rendered |
| `Settlement.ProofService.HandlePayment` | crates/lightning_node/src/layers/proof.rs:204-247 | an unknown hash is ignored without error; a known one settles the session it indexes; an error is returned exactly when that session is pending and cannot be rendered, and leaves the store as it was |
| `Settlement.ProofService.Check` | crates/lightning_node/src/layers/proof.rs:182-198 | not found exactly when there is no such session, otherwise its status, expiry, token and two QR forms, each in its own field |
| `Settlement.ProofService.GetAccessToken` | crates/lightning_node/src/layers/proof.rs:200-202 | the same five fields of the session, not found exactly when there is none |
| `WatcherPayments.PaymentSoundness` | crates/api_server/src/services/watcher_service.rs:18-56 | in every reachable state a paid session is backed by a record of the ledger that is successful, of type "payment", sent to its destination with its memo and amount exactly and its asset up to ASCII case; its hash, token and QR codes were issued for that record |
| `WatcherPayments.LookupExactly` | crates/api_server/src/services/watcher_service.rs:21-48 | a lookup step drops the session when there is no page, no record of the page confirms it, or issuance for the first that does fails; otherwise it holds what was issued for the first confirming record, wherever in the page that is |
| `WatcherPayments.ConfirmedLookupPays` | crates/api_server/src/services/watcher_service.rs:21-52 | from every reachable state, a lookup that sees a confirming record and can issue for it leads to the session being marked paid with that artifact, however stale the snapshot |
| `Watcher.ResolveExactly` | crates/api_server/src/services/watcher_service.rs:21-48 | over every page: the outcome is that of the first record that confirms, at whatever position, and there is none exactly when no record confirms or issuance for that one fails |
| `WatcherPayments.NoDoubleSpend` | crates/stellar_adapter/src/provider.rs:35-70 | in every reachable state two different paid sessions are never backed by the same ledger record |
| `WatcherPayments.MarkNeverMisses` | crates/api_server/src/services/watcher_service.rs:50-55 | whenever the watcher is about to mark a session, however stale its snapshot, the session is in the store, unpaid, and as it was when the snapshot was taken |
| `WatcherPayments.MarkedOnce` | crates/api_server/src/services/watcher_service.rs:18-56 | over any run the sessions that become paid are exactly those marked in it, and none is marked twice |
| `WatcherPayments.SessionLifecycle` | crates/api_server/src/services/payment_service.rs:92-103 | in every reachable state the payment fields of a session are all set or all unset, it is never reported as detected, it is confirmed exactly when paid, and an unpaid one is waiting, and pending, exactly before the end of its request and expired from then on |
| `WatcherPayments.StatusResponseExactly` | crates/api_server/src/services/payment_service.rs:92-120 | in every reachable state, the whole response: waiting before the end of the request, expired from then on, confirmed when paid, with the artifact of the backing record and each field in its place |
| `WatcherPayments.InsertedExactly` | crates/api_server/src/services/payment_service.rs:39-62 | over any run the sessions new at its end are exactly those inserted in it, and each still carries the amount, asset, memo, event and payment link of its order, a request end of the stamp plus 900 seconds and a token expiry of the stamp plus the token life |
| `WatcherPayments.ConfirmedForever` | crates/api_server/src/services/payment_service.rs:92-120 | a confirmed session gives the same status response after every later run, at whatever time |
| `WatcherPayments.DeadForever` | crates/api_server/src/services/payment_service.rs:69-76 | a session that has expired outside the unprocessed part of the snapshot stays expired, and outside of it, in every later state |
| `WatcherExpiry.ExpiredConfirmsExactlyInBatch` | crates/api_server/src/services/watcher_service.rs:18-56 | in every reachable state, an expired session for which a confirming record and a renderable token exist can still become paid in some continuation if and only if it is in the unprocessed part of the snapshot |
| `WatcherExpiry.ExpiredStillConfirmed` | crates/api_server/src/services/watcher_service.rs:18-56 | for every request and every clock and ledger at the start, a state is reached whose session has expired inside the snapshot, and a run goes on to mark it paid if it is confirmable, as it is when every token can be rendered |
| `WatcherPass.TickIsPointwise` | crates/api_server/src/services/watcher_service.rs:17-56 | one pass, with insertions, time and ledger growth going on meanwhile: the ids looked up are those of the snapshot, each once; each of them gets exactly what is due to it for the answer its own lookup was given, wherever in the page the confirming record is; no other earlier session changes, and every session inserted meanwhile is unpaid at the end |
| `WatcherPass.PassIsPointwise` | crates/api_server/src/services/watcher_service.rs:20-56 | the same from any point in the middle of a pass: the rest of the batch gets its own outcomes, what is held is still applied, no other session changes, and later sessions stay unpaid |
| `WatcherPass.LookedUpOnce` | crates/api_server/src/services/watcher_service.rs:20-29 | from any point to the end of a pass, the ids looked up are exactly those whose lookup is still to come, each once |
| `WatcherRuns.StepKeepsInv` | crates/api_server/src/services/watcher_service.rs:17-56 | every step of the watcher, of the routes and of the world keeps: sessions are keyed by their memo, paid ones are backed by a matching record, and the unprocessed batch holds distinct sessions that are unpaid and unchanged in the live store |
| `WatcherRuns.ReachableInv` | crates/api_server/src/services/watcher_service.rs:16-57 | every reachable state, from any clock and ledger at the start, satisfies that invariant |
| `Watcher.Pass` | crates/api_server/src/services/watcher_service.rs:18-56 | the loop over one snapshot without interference: each unpaid session whose request has not ended gets what is due to it for its own answer, every other session is unchanged, and no session appears or disappears |
| `Watcher.Process` | crates/api_server/src/services/watcher_service.rs:20-56 | the loop body changes at most the session it works on: it is marked with what is issued for the first record of the page that confirms it, and unchanged when there is no page, no such record or no artifact, or the store does not know it |
| `Horizon.FirstConfirming` | crates/stellar_adapter/src/provider.rs:61-74 | the position found confirms the request and no earlier record does; the length of the page means that no record does |
| `Horizon.FindConfirmedPayment` | crates/stellar_adapter/src/provider.rs:53-77 | the scan with skips returns the event of the first confirming record, none exactly when no record confirms, an error exactly when the page could not be fetched |
| `Horizon.EventMatches` | crates/stellar_adapter/src/parser.rs:6-29 | a record confirms if and only if it is a successful payment operation and its parsed event has the destination, memo, amount and, up to ASCII case, asset of the request |
| `Horizon.ConfirmsOneMemo` | crates/stellar_adapter/src/provider.rs:67-70 | one record confirms requests of a single memo, amount and destination only |
| `PaymentStore.PendingIffWaiting` | crates/api_server/src/services/payment_service.rs:69-103 | at one instant a session with all or none of its payment fields is pending if and only if it is reported as waiting |
| `PaymentStore.PaymentService.constructor` | crates/api_server/src/services/payment_service.rs:32-37 | a new service has no sessions |
| `PaymentStore.PaymentService.InsertSession` | crates/api_server/src/services/payment_service.rs:39-62 | stores under its session id an unpaid record that keeps the request but for its end, the time plus the request window, and has the event id and, as token expiry, the time plus the token life; other sessions are as before |
| `PaymentStore.PaymentService.PendingSessions` | crates/api_server/src/services/payment_service.rs:69-76 | the result has exactly the records that are unpaid and whose request has not expired, one for each such session, in some order |
| `PaymentStore.PaymentService.MarkPaid` | crates/api_server/src/services/payment_service.rs:78-90 | an unknown session is an error and changes nothing; otherwise the five payment fields of that session are set, each from its own part of the artifact, and nothing else changes |
| `CompactToken.CompactRoundTrip` | crates/access_token/src/compact.rs:13-62 | verifying a signed compact token returns exactly the payload that was signed, whatever periods, quotes, backslashes and control bytes it holds; the token is the encoded payload, a period and the encoded signature |
| `CompactToken.AcceptedExactly` | crates/access_token/src/compact.rs:35-62 | a string is accepted with a payload if and only if it is the canonical spelling of payload bytes and a signature that the key accepts, and those bytes parse to that payload |
| `CompactToken.FormatErrorExactly` | crates/access_token/src/compact.rs:39-41 | the format is invalid if and only if the string has no period |
| `CompactToken.ErrorsExactly` | crates/access_token/src/compact.rs:43-62 | which error any other string gives, by the parts before and after its first period |
| `CompactToken.PayloadFieldsRequired` | crates/access_token/src/compact.rs:6-11 | an object that lacks one of the three fields is no payload |
| `CompactToken.CanonicalForm` | crates/access_token/src/compact.rs:39-62 | two accepted strings with the same payload bytes and signature bytes are the same string |
| `CompactToken.SplitsAtFirstPeriod` | crates/access_token/src/compact.rs:39-41 | splitting recovers the part before the first period and everything after it |
| `CompactToken.PayloadRoundTrip` | crates/access_token/src/compact.rs:6-17 | parsing the serialised payload gives the payload back |
| `CompactToken.PayloadSpelling` | crates/access_token/src/compact.rs:6-17 | the signed bytes, spelled out: the three fields in declaration order under their names, texts escaped and in quotes, the number in decimal, no white space |
| `CompactToken.TokenIsText` | crates/access_token/src/compact.rs:20-23 | a compact token is valid UTF-8, as its Rust type says |
| `SignedToken.SignedTokenAccepted` | crates/access_token/src/verify.rs:60-100 | a token signed by the issuer verifies at exactly the times before its expiry and is reported as expired, with both times, from then on; the same holds of its string |
| `SignedToken.SignedTextRoundTrip` | crates/access_token/src/sign.rs:53-55 | the string of any signed token parses back to the same struct, so verification serialises the bytes that were signed |
| `SignedToken.TokenRoundTrip` | crates/access_token/src/token.rs:4-24 | reading the eleven fields undoes writing them, for every token |
| `SignedToken.TokenSpelling` | crates/access_token/src/token.rs:4-24 | the text that is signed and checked, spelled out: the eleven fields under their names in declaration order, without white space |
| `SignedToken.SignedSpelling` | crates/access_token/src/sign.rs:12-16 | the string of a signed token, spelled out: that text under "token" and the signature under "signature" |
| `SignedToken.SignedErrorsExactly` | crates/access_token/src/verify.rs:72-100 | which error verification gives: undecodable, wrong length, rejected by the key, and expired only for an accepted signature, from the instant of expiry on |
| `SignedToken.RearrangedTokenReads` | crates/api_server/src/services/payment_service.rs:113-115 | a signed token whose members were reordered at both levels, in any text that the JSON grammar derives for it, with white space between any tokens, still reads as the same token |
| `OlderTokens.SignedAcceptedExactly` | crates/access_token/src/verify.rs:60-100 | a string is accepted if and only if it reads as a signed token whose signature is the canonical spelling of one that the key accepts over all eleven fields, before expiry |
| `OlderTokens.KeptReadsBack` | crates/access_token/src/token.rs:4-24 | a struct written without some of its marked fields, which have their defaults, and with the others in any order reads as the same struct |
| `OlderTokens.RequiredFieldsExactly` | crates/access_token/src/token.rs:4-24 | an object with some fields of a token left out, at their defaults, reads, as that token, if and only if version, event id, expiry and nonce are there |
| `OlderTokens.FewerFieldsOtherText` | crates/access_token/src/verify.rs:72-77 | an object of fewer than eleven members that reads as a token is never the text its signature is checked over |
| `OlderTokens.OlderAcceptedExactly` | crates/access_token/src/verify.rs:72-100 | a token that left out any defaulted fields, signed over its own text, is accepted if and only if the key takes that signature for one over all eleven fields, before expiry |
| `OlderTokens.LightningShapeVerdict` | README.md:176 | every Lightning token of five fields, signed by the issuer over its own text, reads; a key that accepts only what the issuer signs accepts it, before expiry, exactly when the two different texts have the same signature |
| `Gate.FormatsDisjoint` | crates/verifier_cli/src/main.rs:51-59 | no string parses as a signed JSON token and is accepted as a compact token, whatever the key |
| `Gate.SignedVerdict` | crates/verifier_cli/src/main.rs:51-61 | a string that parses as a signed token is admitted if and only if its own verification accepts it: the fallback never revives an expired one |
| `Gate.CompactVerdict` | crates/verifier_cli/src/main.rs:56-61 | any other string is admitted if and only if it is an accepted compact token whose expiry has not passed |
| `Gate.AdmittedEarlier` | crates/verifier_cli/src/main.rs:51-61 | what the gate admits at some time it admits at every earlier time |
| `Gate.IssuedTokenAtGate` | crates/api_server/src/services/access_service.rs:27-62 | for every payment event, event id, expiry and nonce, the issued string parses to the version 1 token with exactly the fields of the payment, and the gate admits it if and only if it is before its expiry |
| `Issuance.IssuedExactly` | crates/api_server/src/services/access_service.rs:27-62 | issuing succeeds if and only if the token fits both QR forms; the artifact has the signed string, its PNG and its ASCII form each in its field, and the payment hash |
| `Gate.SpacesIgnored` | crates/verifier_cli/src/main.rs:51 | the gate gives a token the same verdict with any white space characters before and after it |
| `Gate.CompactTokenAtGate` | crates/verifier_cli/src/main.rs:56-61 | the gate admits an issued compact token if and only if its expiry has not passed, the instant of expiry included |
| `Trimming.TrimKeeps` | crates/verifier_cli/src/main.rs:51 | trimming leaves a text alone whose ends are ASCII and not white space |
| `Trimming.TrimExactly` | crates/verifier_cli/src/main.rs:51 | trimming removes a sequence of white space characters from each end, and none is left at either end |
| `Trimming.TrimSurrounded` | crates/verifier_cli/src/main.rs:51 | of a text with plain ends and any white space characters around it, trimming gives that text |
| `Trimming.SpaceCharExactly` | crates/verifier_cli/src/main.rs:51 | the characters trimmed are exactly the UTF-8 forms of the White_Space code points of Unicode |
| `PaymentToGate.SettledInvoiceAtGate` | crates/lightning_node/src/layers/proof.rs:223-237 | in every reachable state the token of a settled invoice verifies to its payment hash, expiry and event, and the gate admits it exactly through that expiry |
| `PaymentToGate.PaidSessionAtGate` | crates/api_server/src/services/watcher_service.rs:41-52 | after every run the token of a paid session parses to version 1, the event, amount and asset of the order it was inserted for and the memo, sender, hash and ledger number of a matching record, and the gate admits it exactly before the time of insertion plus the token life |
| `JsonRoundTrip.DocumentRoundTrip` | crates/access_token/src/sign.rs:53-55 | parsing what was printed gives every well-formed document back |
| `JsonRoundTrip.ReprintParses` | crates/access_token/src/verify.rs:49-51 | whatever parses, printed compactly, parses to the same document |
| `JsonGrammar.ParsesExactly` | crates/access_token/src/verify.rs:49-51 | a text parses to a document if and only if the grammar of RFC 8259 derives it with the same tree, with white space wherever it is allowed and nothing else let through |
| `JsonText.EscapeRoundTrip` | crates/access_token/src/compact.rs:17 | every byte string survives escaping and unescaping, and its escaped form is a string literal |
| `JsonText.EscapedExactly` | crates/access_token/src/compact.rs:17 | exactly quotes, backslashes and controls are escaped, the first two by a backslash |
| `JsonText.LetteredControls` | crates/access_token/src/compact.rs:17 | five controls are written with their letters |
| `JsonText.OtherControls` | crates/access_token/src/compact.rs:17 | the other controls are written as \u00 and two lower-case hexadecimal digits |
| `JsonText.UnicodeEscapeReads` | crates/access_token/src/compact.rs:59-60 | an escape by number reads as the UTF-8 form of that scalar value, and a low surrogate alone does not read |
| `JsonText.DecimalRoundTrip` | crates/access_token/src/compact.rs:17 | every unsigned number survives decimal writing, without a leading zero |
| `JsonText.DecimalTable` | crates/access_token/src/compact.rs:17 | numbers below ten are written with their digit, and any other as the form of its leading part and its last digit |
| `JsonFields.StructRoundTrip` | crates/access_token/src/token.rs:4-24 | reading undoes writing for every struct of text and unsigned fields with distinct names |
| `JsonFields.FieldOrderIrrelevant` | crates/access_token/src/verify.rs:49-51 | reordering the members of an object changes neither its fields nor whether it is read |
| `JsonFields.UnknownIgnored` | crates/access_token/src/verify.rs:49-51 | a member under a name that is no field does not matter, wherever it stands |
| `JsonFields.RepeatedRejected` | crates/access_token/src/verify.rs:49-51 | a field that occurs twice is an error |
| `JsonFields.ArrayReads` | crates/access_token/src/verify.rs:49-51 | an array of the fields in order reads too, with defaults for marked fields at its end, and a longer one does not |
| `Base64.DecodeEncode` | crates/access_token/src/compact.rs:20-48 | unpadded decoding undoes encoding, in both alphabets |
| `Base64.EncodingKeepsNumber` | crates/access_token/src/compact.rs:20-21 | an encoding, read by the places of its characters in the literal alphabet, denotes the same big-endian number as its octets followed by zero bits up to the end of its last character, in the fewest characters that hold them |
| `Base64.EncodesByTable` | crates/access_token/src/compact.rs:1-21 | sextet v is written as the v-th character of the alphabet, given as a literal for both alphabets |
| `Base64.DecodesByTable` | crates/access_token/src/compact.rs:43-48 | a character is read as sextet v if and only if it is the v-th of that literal |
| `Base64.EncodeDecode` | crates/access_token/src/compact.rs:43-48 | whatever decodes is the encoding of what it decodes to: trailing bits must be zero |
| `Base64.DecodeEncodePadded` | crates/access_token/src/sign.rs:45 | padded decoding undoes padded encoding, which is the unpadded one and at most two equals signs up to a multiple of four characters |
| `Base64.EncodeDecodePadded` | crates/access_token/src/verify.rs:78-80 | padded decoding too accepts one spelling only |
| `ApiClient.Request` | haske-ui/src/api/apiClient.ts:239-336 | counted out: four fetches when every attempt is transient and the retry count is absent or at least 3, one more than the count when it is 0, 1 or 2, and otherwise up to the first attempt that is not transient; the result is that of the last attempt; 0, 250, 750 or 1750 ms of waiting; the error after the loop exactly for a negative count |
| `ApiClient.Attempt` | haske-ui/src/api/apiClient.ts:249-323 | an attempt leads to another one exactly when it may be repeated, threw or was answered 408, 425, 429, 500, 502, 503 or 504, and is not the last allowed; otherwise it gives success or the error of its own answer |
| `ApiClient.ErrorExactly` | haske-ui/src/api/apiClient.ts:264-322 | which code, status and retriability each failure is reported with |
| `ApiClient.StopsExactly` | haske-ui/src/api/apiClient.ts:179-181 | the loop makes n attempts if and only if all before the n-th are transient and the n-th is not, or is the last one allowed |
| `ApiClient.RetryBound` | haske-ui/src/api/apiClient.ts:245-324 | for every nonnegative retry count, one to four fetches, at most one more than the count, and 250 * (2^k - 1) ms of waiting for k retries, at most 1750 |
| `ApiClient.UnsafeOnce` | haske-ui/src/api/apiClient.ts:274-275 | a request that is not a GET and may not be repeated is fetched exactly once |
| `ApiClient.TotalWaitClosedForm` | haske-ui/src/api/apiClient.ts:282 | the delays of the first n attempts sum to 250 * (2^n - 1) ms |

## Left out

- HTTP routing, CORS, environment, key loading and server startup: plumbing around the modelled calls.
- The Horizon HTTP client, the Breez gateway and the event forwarder: foreign services, modelled as arbitrary answers.
- QR rendering, QR image decoding and file reading of the verifier: library calls; rendering is a function that may fail.
- Ed25519 itself and the random generators: abstract, under the assumptions above.
- `to_status_response` parses the token again and sends it as a JSON value: the model keeps the token text;
  `SignedToken.RearrangedTokenReads` covers what that re-encoding does to it.
- Request counts that are not integers in the browser client, its messages, headers and request ids: no effect on the loop.
- Error texts and log output: no effect on any state.
- A debug build, where an overflowing `now + expiry` panics instead of wrapping around.
- The mock Lightning server, the React components and the static checkout page: not part of this model.
- Termination of the endless loops and liveness of tasks: runs are finite, and a task may stop anywhere.
