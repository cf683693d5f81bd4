# Verified models of the Image2Prompt services

Dafny models of the stateful cores of the Image2Prompt back end, and proofs of
what those cores promise over every run.

| files | core |
|---|---|
| `RefreshTokens.dfy`, `TokenFamilies.dfy`, `AuthFacade.dfy` | customer sign-in tokens: login, refresh with rotation and reuse detection, logout, single-use action tokens, the denylist and its pruning |
| `Lockout.dfy` | account lockout over the append-only audit log, the same in the customer and the admin service |
| `RateLimit.dfy`, `SharedRateLimit.dfy` | the gateway's fixed-window limiter, in process and shared through Redis |
| `TokenCipher.dfy`, `Connections.dfy`, `Masking.dfy`, `ConfigTexts.dfy`, `Providers.dfy`, `Tables.dfy`, `Texts.dfy` | secrets at rest: tagged ciphertexts, key rotation, OAuth tokens, provider configs and their masked views |
| `Ingest.dfy`, `KnowledgeBank.dfy`, `KnowledgeRuns.dfy`, `KnowledgeFaults.dfy`, `KbFacade.dfy`, `KbUsage.dfy` | knowledge banks: ingest, catalogue, vector index, quotas, jobs, deletion, usage figures |
| `VectorMath.dfy`, `Embedder.dfy`, `VectorStore.dfy` | cosine similarity, the local embedder, top-k search |
| `Money.dfy`, `Pricing.dfy`, `Subscriptions.dfy`, `Payments.dfy`, `BillingTotals.dfy` | rounding, the monthly charge, plans and contracted revenue, idempotent charging, the billing sweep |

Each stateful core has three layers: functions that say what one call does to the
tables; a class whose methods have the fields, branches and loops of the code and
are proved to be exactly one such step; and lemmas about all runs of steps.

## Assumptions

- A call is one atomic step, and the clock does not go back between calls.
- New ids (UUIDs) are new, and a token with a valid signature was signed earlier
  by some service that shares the secret.
- Token times are whole seconds: a JWT carries `exp` in whole seconds (section
  4.1.4 of RFC 7519), and decoding and pruning both compare it with the floor of
  the clock. Audit times are whole microseconds; limiter times are exact reals.
- Fernet is an ideal authenticated cipher (`TokenCiphers.Ideal`, which
  `TokenCiphers.IdealIsPossible` shows can be met): a token opens to what was
  sealed, under its sealing key only. Key derivation does not
  collide, and key fingerprints tell keys apart (`TokenCiphers.NoCollisions`).
- JSON loading undoes dumping, and a JSON text is longer than any text in it
  (`ConfigTexts.Faithful`, which `ConfigTexts.FaithfulIsPossible` shows can be met).
- Square roots, prices and scores are exact reals; rounding is half to even.
- Redis errors and lost replies are arbitrary, but Redis does not lose stored
  counters, and its clock is the replicas' clock.
- Stripe's answers, provider answers, nonces, fresh ids, resolved generations and
  the time are parameters.

## Where the code promises more than it does

- Reuse of a refresh token is meant to burn the whole family. The marker carries
  the presented, older token's `exp`, so once it is pruned the newest token works
  again. `TokenFamilies.ReuseMarkerCanLapse` is a concrete run;
  `TokenFamilies.MarkedFamilyEndsIff` says exactly when a marked family is ended.
- Re-encryption is meant not to orphan data. A secret whose key is missing from
  the ring is overwritten by an empty one, so it stays lost when the key is put
  back: `Connections.LostTokens` and `Providers.LostConfig` are concrete inputs,
  `Connections.UnreadableIsLost` and `Providers.UnreadableIsLost` the exact condition.
- At most one invoice a month rests on the commit after Stripe has finalised one.
  `Payments.LostCommitBillsAgain` is a concrete run with two invoices;
  `Payments.SecondInvoiceIff` says when a second one can come: exactly if an invoice of
  the month stands without its run row.
- A plan caps the documents of a knowledge base, but a failed plan lookup is answered
  without a cap, and the ingest then runs uncapped: `KnowledgeRuns.FailedLookupLiftsCap`
  is a concrete run, `KnowledgeRuns.CapHoldsIff` the exact condition.
- A job whose ingest raises midway commits its documents without counting them, and
  nothing later makes up for it: `KnowledgeFaults.InterruptedCounterLags` is a concrete
  run, `KnowledgeFaults.CounterLags` gives the exact lag.
- Without encryption a config that itself holds text under `_enc` does not open to
  itself: `Providers.SealedOpens`.

## Model

| member | source | states |
|---|---|---|
| `AuthFacades.AuthFacade.Revoke` | services/customer-service/app/dao/revoked_token_dao.py:61-72 | a row is inserted once and never overwritten; nothing else of the denylist changes |
| `AuthFacades.AuthFacade.PruneExpired` | services/customer-service/app/dao/revoked_token_dao.py:98-107 | only rows with a positive expiry before now go, all of them, and their number is returned |
| `AuthFacades.AuthFacade.Issue` | services/customer-service/app/services/token_service.py:39-57 | an access and a refresh token with new ids; the family given is kept, otherwise a new one starts |
| `AuthFacades.AuthFacade.Refresh` | services/customer-service/app/facades/auth_facade.py:154-203 | exactly the refresh step: the order of refusals, reuse marks the family with the presented expiry, success lists the token and issues its successor |
| `AuthFacades.AuthFacade.Logout` | services/customer-service/app/facades/auth_facade.py:206-227 | exactly the logout step: any unexpired token is listed, and its family marked if it has one |
| `AuthFacades.AuthFacade.ResetPassword` | services/customer-service/app/facades/auth_facade.py:260-277 | exactly the reset step: a good reset token sets the password and is listed |
| `AuthFacades.AuthFacade.VerifyEmail` | services/customer-service/app/facades/auth_facade.py:308-323 | exactly the verification step |
| `AuthFacades.AuthFacade.ConsumeToken` | services/customer-service/app/facades/auth_facade.py:325-335 | an action token is taken only if it decodes, has the type asked for and is not listed |
| `AuthFacades.AuthFacade.SendAction` | services/customer-service/app/facades/auth_facade.py:231-305 | an action token for an existing account; a reset request answers alike for an unknown one |
| `RefreshTokens.StepKeepsInv` | services/customer-service/app/facades/auth_facade.py:82-335 | every operation keeps the invariant behind the run theorems: unique ids, rows with their tokens' own expiry, spent parents, linear chains with one owner and non-decreasing expiry |
| `TokenFamilies.SingleUse` | services/customer-service/app/facades/auth_facade.py:260-277 | over every run with prunes each refresh, reset or verification token is honoured at most once |
| `TokenFamilies.RevokedStaysRefused` | services/customer-service/app/dao/revoked_token_dao.py:98-107 | a listed token is refused in every continuation; pruning never makes it presentable again |
| `TokenFamilies.LoggedOutIsNeverUsed` | services/customer-service/app/facades/auth_facade.py:206-227 | an unexpired token that is logged out, with or without a family, is never accepted again |
| `TokenFamilies.AccountFollowsItsTokens` | services/customer-service/app/facades/auth_facade.py:260-323 | over every run an account's password is the one set by the last of its honoured reset tokens, and it is verified exactly if it was or one of its verification tokens was honoured |
| `TokenFamilies.HonouredIff` | services/customer-service/app/facades/auth_facade.py:154-335 | a token is honoured exactly while it is signed, live and of the type the call is for, its account exists and its family is unmarked: no access token refreshes, no refresh token resets a password |
| `TokenFamilies.EveryTokenExpires` | services/customer-service/app/services/token_service.py:39-57 | over every run each token of the history was signed at a step for the account that the step names (who signs up or in, the `sub` of the refreshed token, the addressee of an action mail), with the ids drawn there, and lives from then for the minutes of its type, or is another service's |
| `TokenFamilies.LoginAnswers` | services/customer-service/app/facades/auth_facade.py:144-151 | a login of an existing account always gets two tokens, both for that account, and a family of one; it is refused only for an unknown account, and then changes nothing |
| `TokenFamilies.SignupAnswers` | services/customer-service/app/facades/auth_facade.py:89-106 | a sign-up opens an unverified account with the given password and signs in that account, with a family of one |
| `TokenFamilies.RefreshAnswers` | services/customer-service/app/facades/auth_facade.py:155-190 | which refusal a refresh gets: the first that applies of invalid, wrong type, family revoked, token revoked, unknown account |
| `TokenFamilies.LogoutAnswers` | services/customer-service/app/facades/auth_facade.py:206-227 | a logout always answers alike; exactly the unexpired token and its family join the list, and earlier rows stay |
| `TokenFamilies.SendActionAnswers` | services/customer-service/app/facades/auth_facade.py:231-305 | a reset request answers alike for an unknown account; a token is issued exactly for an account that exists and, for a verification, is not verified yet |
| `TokenFamilies.ActionAnswers` | services/customer-service/app/facades/auth_facade.py:260-335 | an action is done exactly for a live token of its type and an existing account; the refusals tell which failed and change nothing |
| `TokenFamilies.NewRows` | services/customer-service/app/facades/auth_facade.py:174-226 | every row that a step adds to the denylist: whose token or family it is, its reason and its expiry |
| `TokenFamilies.FamilyIsLinear` | services/customer-service/app/facades/auth_facade.py:186-199 | in every run a family is one chain: each token was exchanged for the one before, no token has two successors, n refreshes give n+1 tokens, only the newest can be live |
| `TokenFamilies.OnlyNewestRefreshes` | services/customer-service/app/facades/auth_facade.py:162-203 | a family token is accepted exactly when it is live and the family unmarked; then it is the newest and gets one successor for the same customer |
| `TokenFamilies.ReuseIsDetected` | services/customer-service/app/facades/auth_facade.py:170-185 | presenting any older unexpired token of an unmarked family is refused and marks the family, whatever was pruned |
| `TokenFamilies.MarkerBinds` | services/customer-service/app/facades/auth_facade.py:165-169 | no refresh of a marked family succeeds while the clock has not passed the marker's expiry |
| `TokenFamilies.LogoutBlocksFamily` | services/customer-service/app/facades/auth_facade.py:206-227 | logging out with any unexpired token of a family marks it, and none of its tokens refreshes until that marker's expiry |
| `TokenFamilies.MarkedFamilyEndsIff` | services/customer-service/app/facades/auth_facade.py:170-185 | a marked family is ended for ever if and only if the marker cannot be pruned before its newest token is listed or out of time |
| `TokenFamilies.ReuseMarkerCanLapse` | services/customer-service/app/facades/auth_facade.py:174-176 | a concrete valid run from the empty tables: after a detected reuse, the marker is pruned and the newest token refreshes |
| `TokenFamilies.LogoutWithNewestEnds` | services/customer-service/app/facades/auth_facade.py:213-226 | logging out with a family's newest token ends the family in every continuation |
| `Lockout.LoginFacade.Login` | services/customer-service/app/facades/auth_facade.py:109-151 | exactly the attempt step: the lock is decided before the password, and every outcome is recorded |
| `Lockout.LoginFacade.UnlockAccount` | services/customer-service/app/facades/profile_facade.py:38-51 | an unlock event is appended for an existing account, failures stay |
| `Lockout.FailuresPerWindow` | services/customer-service/app/facades/auth_facade.py:112-143 | over every run, an interval of the window's length with k unlocks holds at most (k+1) T failures of an account, with none at most T |
| `Lockout.ThresholdLocks` | services/customer-service/app/facades/auth_facade.py:123-127 | T failures inside a window's length, no later unlock, and the account is locked for the rest of it |
| `Lockout.WrongPasswordsLock` | services/customer-service/app/facades/auth_facade.py:112-143 | T wrong passwords inside a window's length, none of them refused for a lock and no unlock after its start, lock the account for the rest of it |
| `Lockout.AttemptsAreAudited` | services/customer-service/app/dao/audit_dao.py:18-33 | over every run each attempt on an account is answered and audited once: the right password signs in unless locked, a wrong one never does, and refusals for a lock are not failures |
| `Lockout.SignsInIff` | services/admin-service/app/facades/auth_facade.py:49-84 | an attempt signs in exactly if the account exists, the password is right and the account is not locked; each outcome leaves its one audit row |
| `Lockout.UnknownAccounts` | services/customer-service/app/facades/auth_facade.py:136-143 | over every run every attempt on an unknown account is refused as unauthorized and leaves one failure without an actor; no other rows without an actor arise |
| `Lockout.UnlockFrees` | services/customer-service/app/facades/auth_facade.py:116-126 | an unlock frees at once if and only if fewer than T failures share its timestamp |
| `Lockout.LockedIff` | services/admin-service/app/facades/auth_facade.py:50-66 | the lock is decided by the T-th most recent failure alone: inside the window and not before the last unlock |
| `Lockout.LockLastsExactly` | services/admin-service/app/facades/auth_facade.py:49-84 | without an unlock a lock lasts exactly until the T-th most recent failure leaves the window; any number of attempts, right or wrong, neither pass nor prolong it |
| `RateLimit.MemoryRateLimiter.OverLimit` | services/gateway/app/ratelimit.py:34-43 | the verdict is the one from counting the whole call log of the key in its window, clean-up included |
| `RateLimit.MemoryRateLimiter.Cleanup` | services/gateway/app/ratelimit.py:40-42 | exactly the buckets of other windows are dropped |
| `RateLimit.OverIff` | services/gateway/app/ratelimit.py:34-43 | a call is over exactly if it has a limit and at least that many calls of its key were made earlier in its minute; without a limit never |
| `RateLimit.AdmitsPerWindow` | services/gateway/app/ratelimit.py:34-43 | under a fixed limit L the n calls of a key in a window are admitted exactly min(L, n) times |
| `RateLimit.AdmitsPerMinute` | services/gateway/app/ratelimit.py:34-43 | at most 2L calls of a key are admitted in any 60-second half-open interval |
| `SharedRateLimit.RedisRateLimiter.OverLimit` | services/gateway/app/ratelimit.py:75-90 | one request at one replica: Redis counts, and any failure before or after its effect goes to the local limiter |
| `SharedRateLimit.RedisRateLimiter.GetClient` | services/gateway/app/ratelimit.py:57-68 | the client is created once; a failed creation is never retried |
| `SharedRateLimit.NoLimitNeverOver` | services/gateway/app/ratelimit.py:75-77 | without a limit a request is admitted and touches neither Redis nor the replica |
| `SharedRateLimit.ExchangeKeepsCounter` | services/gateway/app/ratelimit.py:81-86 | the 120-second expiry never resets a shared counter inside its own window |
| `SharedRateLimit.SharedBound` | services/gateway/app/ratelimit.py:75-90 | with R replicas and arbitrary Redis failures a key is admitted at most (R+1) L times a window, at most L of them by Redis |
| `SharedRateLimit.SharedPerMinute` | services/gateway/app/ratelimit.py:75-90 | and at most 2 (R+1) L times in any 60 seconds |
| `SharedRateLimit.SharedExact` | services/gateway/app/ratelimit.py:75-90 | while Redis answers, all replicas together admit exactly min(L, n) of n calls |
| `TokenCiphers.OpensIffKeyHeld` | services/shared/image2prompt_shared/crypto.py:68-87 | the ciphertext of any non-empty text, itself tagged or not, opens to it under exactly the ciphers that hold the sealing key, and to nothing else |
| `TokenCiphers.RoundTrip` | services/shared/image2prompt_shared/crypto.py:68-87 | decrypting what was encrypted gives the text back, exactly unless encryption is off and the text looks tagged |
| `TokenCiphers.EncryptedIsTagged` | services/shared/image2prompt_shared/crypto.py:68-74 | the stored form: version, fingerprint of the current key, token sealed under it |
| `TokenCiphers.OldFormatOpensIffKeyHeld` | services/shared/image2prompt_shared/crypto.py:76-87 | text sealed in the older untagged form opens exactly while its key is held, and never counts as current |
| `TokenCiphers.RotateKeepsPlaintext` | services/shared/image2prompt_shared/crypto.py:89-99 | rotation never changes what a value decrypts to, for every value and every cipher |
| `TokenCiphers.RotateMakesCurrent` | services/shared/image2prompt_shared/crypto.py:89-103 | a tagged value is current after rotation exactly if there is a current key and it was readable or current before |
| `TokenCiphers.RotateLeavesUnreadable` | services/shared/image2prompt_shared/crypto.py:94-99 | rotation leaves plain text and what it cannot open exactly as it was |
| `TokenCiphers.CurrentIff` | services/shared/image2prompt_shared/crypto.py:101-128 | a readable value with a truthful tag is current exactly if the tag names a key and the current key alone opens it |
| `TokenCiphers.SealedIsTruthful` | services/shared/image2prompt_shared/crypto.py:68-74 | whatever is sealed is readable and its tag, if it names a key, names the one that opens it |
| `TokenCiphers.LostIff` | services/shared/image2prompt_shared/crypto.py:68-87 | a text sealed again can be read afterwards, under any keys at all, if and only if its sealing key was held |
| `TokenCiphers.TaggedParses` | services/shared/image2prompt_shared/crypto.py:106-128 | the tag parser recovers key id and token from what the printer wrote |
| `TokenCiphers.MoreKeysOpenTheSame` | services/shared/image2prompt_shared/crypto.py:35-49 | adding keys, in any order, never changes what a readable value opens to |
| `Connections.ConnectionsFacade.PersistRefreshedToken` | services/customer-service/app/facades/connections_facade.py:301-311 | the opened meta with the new access token and expiry is sealed over the row, other rows stay |
| `Connections.ConnectionsFacade.ReencryptTokens` | services/customer-service/app/facades/connections_facade.py:368-390 | every row with a token is opened and sealed again, and the count is the number of rows that changed |
| `Connections.ConnectionsFacade.RotationStatus` | services/customer-service/app/facades/connections_facade.py:393-411 | the numbers of rows with sealed tokens and of those not under the current key |
| `Connections.ReportNumbers` | services/customer-service/app/facades/connections_facade.py:393-411 | the report counts exactly the rows with a token under either tag, and those stale; both are 0 without a key |
| `Connections.RefreshTokenKept` | services/customer-service/app/facades/connections_facade.py:301-311 | however often a provider refreshes the access token, the refresh token opens to the same: never sealed twice, never lost |
| `Connections.LatestAccessToken` | services/customer-service/app/facades/connections_facade.py:301-311 | the access token that opens and its expiry are the latest, the token exactly unless encryption is off and it looks tagged |
| `Connections.ReencryptRowKeeps` | services/customer-service/app/facades/connections_facade.py:380-387 | re-encryption never changes what a row opens to, and with a current key leaves it current |
| `Connections.RunKeepsTokens` | services/customer-service/app/facades/connections_facade.py:301-411 | over every run in which keys are set or change, rows are re-encrypted, previous keys are dropped once the report finds nothing stale, and tokens are refreshed in between, a readable row keeps its refresh token and opens to its latest access token |
| `Connections.ConnectedTokensKept` | services/customer-service/app/facades/connections_facade.py:92-106 | a connection made under encryption opens, after any such run, to the refresh token it was made with and its latest access token |
| `Connections.StaysAtRest` | services/customer-service/app/facades/connections_facade.py:92-106 | under encryption every stored token is empty or tagged, after any run with a re-encryption, or from sealed rows |
| `Connections.PreviousKeysCanGo` | services/customer-service/app/facades/connections_facade.py:392-411 | after a run whose last change of key is followed by a re-encryption nothing is reported stale, and dropping the previous keys changes nothing any row opens to |
| `Connections.StaleIff` | services/customer-service/app/facades/connections_facade.py:393-411 | a readable row with truthful tags is not reported stale exactly if its tags name keys and dropping the previous keys loses none of its tokens |
| `Connections.UnreadableIsLost` | services/customer-service/app/facades/connections_facade.py:380-387 | a sealed token of any row can be read after re-encryption, with any keys ever added, if and only if its key was in the ring |
| `Connections.LostTokens` | services/customer-service/app/facades/connections_facade.py:380-387 | a concrete row: re-encrypted without its key both its tokens are gone under every ring |
| `Masking.MaskConfigLoop` | services/admin-service/app/masking.py:25-33 | exactly the non-empty secret texts are masked |
| `Masking.SecretNames` | services/admin-service/app/masking.py:17-22 | a name is secret exactly if one of the seven words stands somewhere in its lower-cased form |
| `Masking.MergeWithExisting` | services/admin-service/app/masking.py:36-53 | stated on the inputs: a value neither null nor the mask is what the key holds afterwards, null removes the key, a mask or an unnamed key keeps what was there |
| `Masking.MergeByCases` | services/admin-service/app/masking.py:36-53 | the same cases for the merge that the run theorems use |
| `Masking.MaskedViewMergesBack` | services/admin-service/app/masking.py:25-53 | merging a config's masked view into it changes nothing, if and only if it has no nulls |
| `Masking.PatchIsIdempotent` | services/admin-service/app/masking.py:36-53 | applying a patch twice is applying it once |
| `Masking.PatchesCombine` | services/admin-service/app/masking.py:36-53 | two patches in a row are one combined patch, in which a later mask keeps the earlier value |
| `Masking.MaskHides` | services/admin-service/app/masking.py:25-33 | configs that differ only in secret texts have the same masked view |
| `Providers.SealedOpens` | services/admin-service/app/facades/providers_facade.py:39-59 | sealing then opening gives the config back, exactly unless encryption is off and the config holds text under the reserved key |
| `Providers.MaskedViewIsNoChange` | services/admin-service/app/facades/providers_facade.py:83-104 | sending a provider's masked view back as an update leaves its opened config as it was, with the exact condition |
| `Providers.PatchesThroughTheVault` | services/admin-service/app/facades/providers_facade.py:83-104 | under encryption updates open to the merged config, are idempotent, and combine |
| `Providers.ProvidersFacade.UpdateProvider` | services/admin-service/app/facades/providers_facade.py:83-104 | only the named fields of the one row change, its config through open, merge and seal; the opened config is shown; what each key then opens to is `RunKeepsValues` |
| `Providers.ProvidersFacade.ReencryptConfigs` | services/admin-service/app/facades/providers_facade.py:114-132 | every sealed config is opened and sealed again, and the count is the number of rows that changed |
| `Providers.ProvidersFacade.RotationStatus` | services/admin-service/app/facades/providers_facade.py:134-146 | the numbers of sealed configs and of those not under the current key |
| `Providers.ReportNumbers` | services/admin-service/app/facades/providers_facade.py:134-146 | the report counts exactly the configs that are a text under either tag, and those stale; both are 0 without a key |
| `Providers.StaleIff` | services/admin-service/app/facades/providers_facade.py:134-146 | a readable config with a truthful tag is not reported stale exactly if its tag names a key and dropping the previous keys does not lose it |
| `Providers.RunKeepsConfigs` | services/admin-service/app/facades/providers_facade.py:72-146 | over every run in which keys are set or change, configs are re-encrypted, previous keys are dropped once the report finds nothing stale, and updates fall in between, a readable config opens to its original with exactly its own patches applied |
| `Providers.RunKeepsValues` | services/admin-service/app/facades/providers_facade.py:83-104 | over every such run each key of a config opens to the last value its own updates gave it, masks skipped and null meaning absent |
| `Providers.StaysAtRest` | services/admin-service/app/facades/providers_facade.py:39-44 | under encryption a row that is empty or one sealed text stays so over every run, and an update makes any row so |
| `Providers.CreatedConfigKept` | services/admin-service/app/facades/providers_facade.py:72-81 | a provider created under encryption opens, after any such run, to the config it was created with and exactly its own patches |
| `Providers.PreviousKeysCanGo` | services/admin-service/app/facades/providers_facade.py:114-146 | after a run whose last change of key is followed by a re-encryption nothing is reported stale, and every config opens to the same without the previous keys |
| `Providers.UnreadableIsLost` | services/admin-service/app/facades/providers_facade.py:114-132 | a sealed config can be read after re-encryption, with any keys ever added, if and only if its key was in the ring; otherwise the empty config takes its place |
| `Providers.LostConfig` | services/admin-service/app/facades/providers_facade.py:124-130 | a concrete config: re-encrypted without its key it is the empty config under every ring |
| `Providers.ProvidersFacade.CreateProvider` | services/admin-service/app/facades/providers_facade.py:72-81 | a taken key is a conflict; otherwise the sealed config is added and shown opened, other rows stay |
| `Ingest.TextIsEmptyIff` | services/kb-service/app/facades/kb_facade.py:44-54 | which generations have nothing to embed |
| `Ingest.TextIs` | services/kb-service/app/facades/kb_facade.py:44-54 | what is embedded: instruction, first output and the names of the providers, as far as there are any, in this order with a blank line between |
| `Ingest.TitleIs` | services/kb-service/app/facades/kb_facade.py:53 | the title is the first output, or the instruction without one, cut to 200 characters |
| `Ingest.IngestClosedForm` | services/kb-service/app/facades/kb_facade.py:145-166 | the loop stores exactly the first min(remaining, eligible) eligible generations, in list order, and skips all others |
| `Ingest.EligibleIsFirsts` | services/kb-service/app/facades/kb_facade.py:145-157 | the eligible generations are those with an id and text, not catalogued, each the first of its id with text |
| `Ingest.IngestCounts` | services/kb-service/app/facades/kb_facade.py:144-167 | ingested and skipped add up to the batch, and the quota is never exceeded |
| `Ingest.RepeatAddsNothing` | services/kb-service/app/facades/kb_facade.py:145-166 | the loop over the same batch again adds nothing |
| `KnowledgeBank.IngestEffect` | services/kb-service/app/facades/kb_facade.py:129-167 | the reply, the counter, the catalogue and the index after an ingest in closed form |
| `KnowledgeBank.IngestAddsDocs` | services/kb-service/app/facades/kb_facade.py:152-162 | the catalogue gains exactly one row for each stored generation, in order, with its title |
| `KnowledgeBank.IngestLeavesOthers` | services/kb-service/app/facades/kb_facade.py:129-167 | an ingest leaves every other knowledge base alone |
| `KnowledgeBank.PurgeOne` | services/kb-service/app/facades/kb_facade.py:250-255 | purging from its own backend leaves nothing of a knowledge base anywhere, and counts its rows |
| `KnowledgeRuns.TablesAlwaysAgree` | services/kb-service/app/facades/kb_facade.py:128-167 | in every run doc_count is the number of catalogue rows, a generation is catalogued once, the index holds exactly the catalogued generations, nothing is orphaned |
| `KnowledgeRuns.CreateAnswers` | services/kb-service/app/facades/kb_facade.py:86-110 | a knowledge base is created exactly if its stack is known and the plan, where one is asked, has a subscription, has the stack and has room; it is empty, and nothing else changes |
| `KnowledgeRuns.IngestAnswers` | services/kb-service/app/facades/kb_facade.py:129-134 | an ingest answers with counts exactly for the owner; otherwise nothing changes |
| `KnowledgeRuns.GroupAndJobAnswers` | services/kb-service/app/facades/kb_facade.py:171-188 | a job is taken on exactly for the owner and waits; an unknown job does nothing |
| `KnowledgeRuns.DeleteTakesItsShare` | services/kb-service/app/facades/kb_facade.py:258-278 | deleting a knowledge base or a group takes precisely its share and reports it |
| `KnowledgeRuns.DeleteAnswers` | services/kb-service/app/facades/kb_facade.py:258-278 | a delete succeeds exactly for the owner; a group goes with its row and no other group does; a refusal changes nothing |
| `KnowledgeRuns.BatchesCompose` | services/kb-service/app/facades/kb_facade.py:129-167 | under one plan ingesting a + b leaves the same tables as a then b, and the counts add up |
| `KnowledgeRuns.RepeatedBatchAddsNothing` | services/kb-service/app/facades/kb_facade.py:129-167 | in every run, a batch sent again under the same plan changes nothing |
| `KnowledgeRuns.QuotasHold` | services/kb-service/app/facades/kb_facade.py:86-204 | whatever other customers do, one whose ingests are told the cap never exceeds its plan's quotas, jobs included, nor creates a knowledge base without a subscription or in a stack the plan lacks, failed lookups included |
| `KnowledgeRuns.CapHoldsIff` | services/kb-service/app/facades/kb_facade.py:134-157 | no batch leads beyond the cap if and only if the lookup's answer carries one that is no greater |
| `KnowledgeRuns.FailedLookupLiftsCap` | services/kb-service/app/services/clients.py:17-27 | a concrete valid run in which a failed lookup lets a knowledge base exceed its plan's cap |
| `KnowledgeRuns.CustomersAreIsolated` | services/kb-service/app/facades/kb_facade.py:128-278 | in every run no step of one customer changes a row, catalogue, index, group or job of another |
| `KnowledgeRuns.JobOutcome` | services/kb-service/app/facades/kb_facade.py:184-204 | a job finishes exactly if its customer still has the knowledge base; its counts add up to the batch and to what the catalogue gained, otherwise nothing but its status changes |
| `KnowledgeRuns.OwnTextIsFound` | services/kb-service/app/facades/kb_facade.py:207-225 | in every run an ingested document with a token in its text is found by that text: the first hit scores 1, and the document itself is a hit of score 1 unless all top-k hits are, until its knowledge base is deleted |
| `KnowledgeRuns.SearchIsOfItsOwn` | services/kb-service/app/facades/kb_facade.py:207-225 | in every run a search answers with the own catalogued generations, each at most once, as many as asked for and there are, and none left out is more similar than one answered |
| `KnowledgeFaults.CounterLags` | services/kb-service/app/facades/kb_facade.py:128-204 | over every run, interrupted jobs included, index and catalogue hold the same generations once each, and a counter lags the catalogue by exactly what interrupted jobs had stored |
| `KnowledgeFaults.LagStays` | services/kb-service/app/facades/kb_facade.py:167-204 | a lag never shrinks while the knowledge base is there, whatever is sent again |
| `KnowledgeFaults.InterruptedCounterLags` | services/kb-service/app/facades/kb_facade.py:192-204 | a concrete valid run: a job raises at its second generation, the batch is sent again, and the counter stays one behind |
| `KbFacades.KbFacade.CreateKb` | services/kb-service/app/facades/kb_facade.py:86-110 | exactly the create step: unknown stacks, plan gating and the quota |
| `KbFacades.KbFacade.IngestGeneration` | services/kb-service/app/facades/kb_facade.py:145-166 | one turn of the loop, its checks in order |
| `KbFacades.KbFacade.IngestBatch` | services/kb-service/app/facades/kb_facade.py:129-167 | exactly the ingest step, and the tables agree afterwards |
| `KbFacades.KbFacade.RunJob` | services/kb-service/app/facades/kb_facade.py:184-204 | a job ingests and records its counts, or fails when its knowledge base is gone |
| `KbFacades.KbFacade.RunInterruptedJob` | services/kb-service/app/facades/kb_facade.py:192-204 | exactly the step of a job whose ingest raises: earlier turns are committed, the counter is not, the job fails |
| `KbFacades.KbFacade.DeleteKb` | services/kb-service/app/facades/kb_facade.py:258-265 | exactly the delete step |
| `KbFacades.KbFacade.DeleteGroup` | services/kb-service/app/facades/kb_facade.py:268-278 | the loop over a group's knowledge bases purges exactly the customer's share of the group |
| `KbFacades.KbFacade.Search` | services/kb-service/app/facades/kb_facade.py:207-216 | the top-k of one's own knowledge base, nothing of another's; whose hits they are is `SearchIsOfItsOwn` |
| `KbUsage.UsageIsComplete` | services/kb-service/app/dao/kb_dao.py:150-168 | in every run the usage lines together account for every knowledge base of the customer and every document in one |
| `KbUsage.UsageMatchesCatalogue` | services/kb-service/app/dao/kb_dao.py:150-168 | in every run one usage line for each stack in use, whose figures are the numbers of knowledge bases and of catalogue rows |
| `KbUsage.UsageInOrder` | services/kb-service/app/dao/kb_dao.py:150-168 | the lines come in the alphabetical order of the stacks |
| `VectorMath.CauchySchwarz` | services/kb-service/app/services/vectorstores/base.py:23-30 | the squared dot product of a common prefix is at most the product of the squared lengths |
| `VectorMath.CosineBounded` | services/kb-service/app/services/vectorstores/base.py:23-30 | cosine lies in [-1, 1] for all vectors, also of unequal length |
| `VectorMath.LawOfCosines` | services/kb-service/app/services/vectorstores/base.py:23-30 | the squared distance of two vectors is the squared lengths less twice the lengths' product times the cosine, so the score is fixed by geometry |
| `VectorMath.NormalisedLength` | services/kb-service/app/services/embedder.py:40-41 | a normalised vector has length one, or every entry is zero |
| `VectorMath.NormalisedDirection` | services/kb-service/app/services/embedder.py:40-41 | scaled by the length, a normalised vector is the vector again |
| `Embedder.EmbeddingLength` | services/kb-service/app/services/embedder.py:35-41 | an embedding has length one exactly when the text has a letter or digit, and is zero otherwise |
| `Embedder.WordIsToken` | services/kb-service/app/services/embedder.py:16-37 | a run of letters and digits is one token, itself in lower case |
| `Embedder.TokensSplit` | services/kb-service/app/services/embedder.py:16-37 | any other character ends one token and begins the next |
| `Embedder.WordHits` | services/kb-service/app/services/embedder.py:37-39 | a word counts once, in the bucket of its lower-cased text, and nowhere else |
| `Embedder.CountsAdd` | services/kb-service/app/services/embedder.py:37-39 | two texts apart count, bucket by bucket, what each counts |
| `Embedder.EmbeddingIsScaledCounts` | services/kb-service/app/services/embedder.py:40-41 | scaled by the length of the counts, an embedding is the counts |
| `Embedder.EmbedText` | services/kb-service/app/services/embedder.py:35-41 | the bucket-counting loop computes the embedding |
| `VectorStore.SortIsStable` | services/kb-service/app/services/vectorstores/base.py:46-50 | ranking is descending, loses nothing, and keeps the order of equal scores |
| `VectorStore.QueryIsTopK` | services/kb-service/app/services/vectorstores/sql.py:24-31 | the answer is the best min(k, n) rows in descending order, and no row left out scores above one taken |
| `VectorStore.EveryHitIsARow` | services/kb-service/app/services/vectorstores/sql.py:24-31 | every hit is a row, with that row's document and that row's similarity to the query |
| `VectorStore.EveryRowIsRanked` | services/kb-service/app/services/vectorstores/base.py:46-50 | every row is a hit under its own document, or k hits score at least as high |
| `VectorStore.HitsAreDistinct` | services/kb-service/app/services/vectorstores/base.py:46-50 | with one row a document no document is a hit twice |
| `VectorStore.UpsertReplaces` | services/kb-service/app/services/vectorstores/base.py:40-44 | after an upsert a document has the one row given, every other document the rows it had |
| `Ingest.StoreUpserts` | services/kb-service/app/services/vectorstores/sql.py:19-22 | the shared table and the in-process lists behave as one index: an upsert in one namespace, nothing in another |
| `Money.RoundsHalfToEven` | services/customer-service/app/services/stripe_service.py:120-125 | rounding gives the nearest integer and the even one of two, and nothing else does |
| `Money.BillableSum` | services/customer-service/app/services/stripe_service.py:115-117 | dropping the lines not above zero leaves the sum as it is, if and only if none is negative |
| `Money.InvoiceVersusDisplay` | services/customer-service/app/services/stripe_service.py:115-126 | the minor units invoiced over n lines differ from 100 times the displayed total by at most (n+1)/2, by nothing for whole cents |
| `Money.CreateInvoiceItems` | services/customer-service/app/services/stripe_service.py:115-126 | one item for each line above zero, in order and rounded on its own; together they are the invoice |
| `Pricing.ComputeSubscription` | services/customer-service/app/facades/payments_facade.py:94-121 | the line items for the stacks in use and the rounded total |
| `Pricing.LinesMirrorUsage` | services/customer-service/app/facades/payments_facade.py:102-114 | a bill line for each usage line with knowledge bases, with its figures and the price of its stack, and no other |
| `Pricing.LinesInOrder` | services/customer-service/app/facades/payments_facade.py:102-114 | and in the order of the usage lines |
| `Pricing.ChargeAndSpared` | services/customer-service/app/facades/payments_facade.py:101-119 | the list price is exactly the charge plus what unused stacks and replaced entries spare |
| `Pricing.ChargeWithinListPrice` | services/customer-service/app/facades/payments_facade.py:101-119 | the unrounded charge never exceeds the list price, even when a plan lists a stack twice, and equals it exactly when nothing is spared |
| `Pricing.PriceIsLastEntry` | services/customer-service/app/facades/payments_facade.py:101-113 | a stack costs what its last entry says, and nothing without one |
| `Subscriptions.ValidateStacks` | services/admin-service/app/facades/subscriptions_facade.py:30-42 | the first problem of a price list, if it has one |
| `Subscriptions.EntryIsGoodIff` | services/admin-service/app/facades/subscriptions_facade.py:34-41 | which entries are good, and what is wrong with any other |
| `Subscriptions.SubscriptionsFacade.CreatePlan` | services/admin-service/app/dao/subscription_dao.py:30-40 | a valid plan with a new name is added, and no other; its prices are the entries sent, one for one, stack and cost, a missing cost as 0; its list price is the sum of the costs sent |
| `Subscriptions.SubscriptionsFacade.UpdatePrices` | services/admin-service/app/facades/subscriptions_facade.py:72-82 | a valid price list replaces the plan's, entry for entry as sent, and the list price is the sum of the costs sent; other plans stay |
| `Subscriptions.ListPriceAsSent` | services/admin-service/app/dao/subscription_dao.py:34-36 | the list price of stored prices is the sum of the costs in the raw entries |
| `Subscriptions.SubscriptionsFacade.Assign` | services/admin-service/app/dao/subscription_dao.py:80-94 | one row a customer, set to the plan and active; other customers stay |
| `Subscriptions.RevenueRollup` | services/admin-service/app/dao/subscription_dao.py:111-133 | the roll-up loop computes the total and each plan's row: id, name, active customers, rounded price, and rounded revenue of that many prices |
| `Subscriptions.TotalMrrIsJoinPrice` | services/admin-service/app/dao/subscription_dao.py:111-157 | total_mrr is the list prices over the active-subscription join, up to half a cent a plan plus half a cent, and exactly for whole cents |
| `Subscriptions.ChargesWithinMrr` | services/admin-service/app/dao/subscription_dao.py:111-157 | with whole-cent prices all active subscribers' charges together stay within total_mrr |
| `Payments.PaymentsFacade.EnsureStripeCustomer` | services/customer-service/app/facades/payments_facade.py:53-67 | the stored Stripe customer is reused, a new one is kept |
| `Payments.StripeIdAfter` | services/customer-service/app/facades/payments_facade.py:53-67 | a customer without a Stripe id keeps the one that Stripe creates; no other id changes |
| `Payments.PaymentsFacade.ChargeSubscription` | services/customer-service/app/facades/payments_facade.py:142-204 | exactly the charge step: every early answer, and a finalised invoice whose run violates the unique key or is not committed |
| `Payments.ChargeAnswers` | services/customer-service/app/facades/payments_facade.py:142-204 | which answer a charge gives, in the order of its checks |
| `Payments.AmountAndStatus` | services/customer-service/app/facades/payments_facade.py:173-191 | an invoice is answered and recorded with Stripe's amount, or the displayed total if Stripe asks for nothing, and Stripe's status, or "created" |
| `Payments.PaymentsFacade.RunBillingSweep` | services/customer-service/app/main.py:76-104 | exactly the sweep: one charge a subscriber, exceptions before a charge or at its commit, three counters |
| `Payments.OneInvoiceAMonth` | services/customer-service/app/facades/payments_facade.py:142-204 | over every run of charges and sweeps whose run records commit a customer gets at most one finalised invoice a month, every run row has its invoice and a status, and every invoice its row |
| `Payments.InvoicesAreRunsAndLosses` | services/customer-service/app/facades/payments_facade.py:142-204 | over every run at all the invoices of a customer's month are the one of its run, if it has one, and those whose commit was lost |
| `Payments.SecondInvoiceIff` | services/customer-service/app/facades/payments_facade.py:148-191 | from a reachable state with at most one invoice of the month no later run that commits makes a second one, if and only if no invoice of the month stands without its run row |
| `Payments.LostCommitBillsAgain` | services/customer-service/app/facades/payments_facade.py:173-191 | a concrete run: the commit after a finalised invoice is lost, and the next charge invoices the month again |
| `Payments.LaterCallsReturnTheRun` | services/customer-service/app/facades/payments_facade.py:148-157 | later calls for an invoiced month return the same run and change nothing |
| `Payments.RecordedAmount` | services/customer-service/app/facades/payments_facade.py:180-190 | when Stripe asks for what the items add up to, the recorded amount is the displayed total up to half a cent a line plus half a cent, exactly so for whole cents |
| `Payments.RunKeepsRows` | services/customer-service/app/dao/billing_dao.py:15-33 | run rows and stored Stripe customers are never changed by any run |
| `Payments.SweepCounters` | services/customer-service/app/main.py:83-104 | billed, skipped and failed add up to the subscribers processed; failed are the turns that raise or that Stripe refuses; billed is the number of new run rows when no id that Stripe sends is empty, and exceeds it by the empty ones otherwise |
| `Payments.FailuresAreIsolated` | services/customer-service/app/main.py:89-103 | after a sweep the runs, the Stripe customer and the invoices of a customer are those after sweeping its entries alone, whatever befalls the others |
| `BillingTotals.MonthWithinMrr` | services/customer-service/app/main.py:76-104 | over any run of charges and sweeps whose run records commit, each on the usage reported at its time, lookups that fail included, with whole-cent prices: what all active subscribers are invoiced in a month stays within total_mrr |
| `BillingTotals.ChargeOnReportedUsage` | services/kb-service/app/dao/kb_dao.py:150-168 | on the usage reported after any run of the knowledge-bank service a charge stays within the list price |

## Left out

- Signature checks, bcrypt, SHA-256, MD5 and Fernet internals: assumptions stated above.
- Interleaving inside one call, such as check-then-insert on the denylist: the code relies on the database there.
- Emails, names and the audit rows of token operations: accounts stand under their ids; signing up an email twice is not modelled.
- Admin refresh and logout: the same denylist without families, so single use would be shown again for a simpler machine.
- An exception between storing a vector and cataloguing it: an interrupted job raises between two turns of its loop.
- External vector backends and the Titan embedder: foreign calls; a stack other than pgvector is its in-process list.
- Payload columns of the vector index, project and file references of documents, KB names and status columns.
- The order in which a query without ORDER BY returns rows: rows stand in insertion order. Only the order of equal scores depends on it.
- A negative `top_k`, which Python slices from the end, and the rounding of displayed scores to four digits.
- Lower-casing beyond ASCII in the embedder and the secret-name check.
- The order of keys in a config: configs are maps. A non-text value under `_enc`, on which the code raises, is excluded by the type of configs.
- The text of Redis keys: a counter stands under the pair of key and window.
- Loss of Redis data, which would reset a shared counter.
- Overwriting stored payment settings through the settings update, which may drop a Stripe customer id.
- The items that a partly failed invoice leaves at Stripe: the history holds finalised invoices only.
- Time zones and the calendar: a billing period is a number given to the charge.
- Subscriptions.SubscriptionsFacade.UpdatePrices: models the price list of a plan update only, because name, status and quotas do not enter the billing claims.
- KbFacades.KbFacade.RunJob: the intermediate status "running" is not visible, because a call is one step; its branch for an exception is RunInterruptedJob.
- AI provider adapters and storage back ends: each is one call to a foreign service, whose answers would be assumptions.
- Routers, controllers, migrations, logging and the portals: they hold no state that the properties speak of.
- The secret library, image dispatch, analytics and admin-user records: single-table create, read, update and delete, without a rule that spans operations.
- Plan changes in the middle of a month: the month's charges are priced by one book of plans, against whose total they are compared.
