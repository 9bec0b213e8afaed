# Agent Identity Plane: a verified model

A Dafny model of the delegation protocol of the Agent Identity Plane, with proofs of what it keeps over
whole runs. An STS exchanges a subject token for one more hop, a replay cache makes each hop's token
single-use, an audit log records every decision and is later traced, a rotating key ring signs, and a gateway
admits the tokens under DPoP (RFC 9449) and starts a visor session.

`dafny verify dfyconfig.toml` checks the whole project. There is one module per file. Classes model the objects the
Go code updates in place (`Sts.Config`, `Replay.ReplayCache`, `Audit.Logger`, `Nonce.NonceCache`,
`Keyrings.Keyring`, `Gateway.DPoPGate`, `Pep.Server`, `RateLimit.TokenBucket`, `IdentFile.Resolver`); each of
their methods is proved equal to a function of the old state, and the theorems are about those functions. Each
decision has a second, independent statement: the conditions written out in order, the request passing exactly when
all hold and being refused for the first that does not (`FirstFailure.Decides`).

| layer | modules |
|---|---|
| strings, scopes, claims, UTF-8, stable sort | `Strings`, `Scopes`, `Claims`, `Utf8`, `StableSort` |
| append-only files under failed writes, kills and power failures | `AppendLog` |
| replay cache and its runs | `Replay`, `ReplayRuns` |
| audit chain, its runs, tracing | `Audit`, `AuditRuns`, `Trace` |
| key selection and rotation | `Jws`, `Keyrings` |
| decisions as ordered conditions | `FirstFailure` |
| one exchange | `Registry`, `Sts`, `Checks` |
| the STS as a state machine, and its theorems | `Delegation`, `ExchangeSteps`, `Lineage`, `Presentation`, `SingleUse`, `Siblings`, `Revocation`, `Provenance` |
| gateway and session | `Nonce`, `Gateway`, `AdmissionRuns`, `VisorAdapter`, `Session`, `Pep`, `Requests` |
| a token's way from STS to session | `EndToEnd` |
| self-contained parts | `RateLimit`, `IdentFile` |

## The run model

`Delegation` splits an exchange where it touches shared state: `Begin` (snapshot and every check), `Consume` (the
replay cache, then the mint), `WriteAudit` (the record, then the token is released). Any number of exchanges
interleave with each other, with DPoP proofs the token endpoint spends in the same cache, early HTTP denials, reloads,
failed, torn or unsynced writes, and restarts. A restart follows a process kill, which loses nothing and makes nothing
durable, or a power failure, which can lose whatever was not synced. `ExchangeSteps` proves that the steps of one
exchange, run without interruption, are exactly `Config.Exchange`.

`Enabled` states what is taken of the environment: random identifiers have `newID`'s format and are never drawn twice;
a token the STS keys verify was minted and released by this STS; IdP tokens do not name a transaction id the STS drew;
the audit log's clock does not go back. The audit log reads its clock under its lock. The replay cache reads before it
locks, so its readings are in any order, and so is the time each exchange decided by; what single use needs of them is
a hypothesis of its own (`SingleUse.Timely`). `Initial` is a first start on empty files with a clock past the year 1.

Hashes and signatures are free constructors, so they are injective. Files are sequences of whole
records, newlines and fragments. A Dafny `char` is one byte. Instants are
nanoseconds since the Unix epoch.

## What the code does and its documentation does not say

1. `ReplayCache.Consume` reads the clock before it takes the lock. A sequence of readings lets one (jti, exp) be consumed
   twice exactly when some reading is strictly above an earlier and a later one, with a deadline between
   (`ReplayRuns.ScheduleAdmitsTwoIff`; after the first seconds of 1970 there always is one). With ordered readings it is
   consumed at most once, ever (`ReplayRuns.AtMostOnce`). Over protocol runs, two mints share a parent only if between two
   consumes of it inside its deadline a step entered the cache with a reading past it (`SingleUse.SiblingsNeedCrossing`),
   and from every reachable state such readings do make two mints of any released token that could be exchanged
   (`Siblings.StaleReadingMintsTwice`; one run in full is `Siblings.TokenWithTwoSuccessors`). The readings that allow a
   double consumption are also those under which the purge can be seen at all (`ReplayRuns.PurgeVisibleIff`); nonce
   collection is alike (`Nonce.GcVisibleIff`).
2. "Scope only narrows" (AI5) fails after a hop that issues the empty scope: the next hop reads `""` as no ceiling and
   issues its agent's whole `max_scopes` (`Scopes.EmptyScopeWidens`). A hop narrows exactly when its incoming text is not
   empty or its agent's `max_scopes` is (`Scopes.HopNarrowsIff`), and a path narrows from the user's grant on exactly
   when each of its hops does (`Lineage.ScopeNarrowsAlongPathIff`).
3. A second exchange of a token is refused, but the first need not mint: the jti is spent before the confirmation
   key is looked at (`Sts.SpentEitherWay`).
4. A kid removed exactly `KeyRetirementWait` after its last mint is removed one second too early
   (`Keyrings.RetirementSafeIff`, `Keyrings.ExactWaitIsTooShort`).
5. Key stability is checked between consecutive rings only. Accepted installs can turn a published kid into another key
   exactly when the kid was away somewhere between (`Keyrings.ReusedKidInvalidatesIff`).
6. A write that lost only its newline leaves a log that reopens, acknowledges one more record and then never opens
   again (`AuditRuns.LostNewlineEndsTheLog`, with the exact condition in `AuditRuns.ReopenAfterAppendIff`).
7. The replay log is read back with a line limit of 1 MiB that `Consume`, unlike `Append`, does not check. A
   DPoP proof whose jti is 174,763 `<` characters is recorded and acknowledged, and the log never opens again
   (`Gateway.LongProofEndsTheLog`, with the exact condition in `Replay.ReopenAfterConsumeIff`).
8. The symlink resolver shares one `seen` set between a path and its parents, so it refuses some paths that are no
   cycle: exactly those that read one link twice (`IdentFile.CanonicalIff`, `IdentFile.RefusedWithoutCycle`).
9. visor-session accepts a mapping whose `workload_id` is blank but not empty, which the gateway never
   makes (`Session.BlankWorkloadAccepted`, with the exact condition in `Session.AcceptedIffGatewayMapping`).
10. `tokenBucket.allow` also reads its clock before the lock. A stale reading can take tokens below zero and refuse a
    call that came 1/rate after it (`RateLimit.StaleReadingStarves`). Which calls no history can starve is exact
    (`RateLimit.NeverStarvedIff`, `RateLimit.PatienceNeededIff`); the rate bound holds in any order
    (`RateLimit.RateBound`).
11. A token minted under an IdP transaction id of white space only is refused by every gateway as incomplete
    (`EndToEnd.MintedTokenIsServed`).
12. `GenesisPrevHash` is described as the SHA-256 of an empty payload and is not; the model uses the constant as it is.
13. Replay retention and time validation agree exactly for clocks past the first 30 seconds of 1970
    (`Claims.ReplayWindowMatches`).

## Model

| member | source | states |
|---|---|---|
| Provenance.ProvenanceComplete | internal/sts/sts.go:211-252 | In every reachable state of the STS, a trace of its audit file by nothing but the jti of any token ever returned shows a verified `token_minted` record for every hop from the root exchange, in hop order, with its acting agent, workload, audience and hops [sub, a1..ak], whatever visor files are added; it fails only when the file has become unreadable |
| Provenance.HopsRecordedIff | internal/audit/logger.go:217-254 | A record shows a hop list in full exactly when it has at most 32 hops, each valid UTF-8 of at most 4096 bytes |
| Provenance.LogIsSorted | internal/audit/trace.go:135-153 | An accepted log written under an ordered clock is already in `recordLess` order |
| Provenance.PathRecords | internal/sts/sts.go:211-252 | The audit records of a released token's ancestors all exist and stand in hop order |
| Lineage.PathInvariant | internal/sts/sts.go:286-381 | Every token minted in any run, cache readings in any order: same sub and txn as its root, actors are the agents of its hops in order, nested `act` is their mirror image, depth is the hop count and within each hop's max_depth, each actor handed over along an allowed audience edge, and each hop was permitted by and signed under one published snapshot |
| Lineage.ScopeNarrowsAlongPathIff | internal/sts/sts.go:436-451 | Along a path every token is within the user token and every token before it exactly when each hop was given a scope text or its agent has no max_scopes; then it is within every earlier agent's max_scopes too |
| Lineage.RunsOnlyAdd | internal/sts/sts.go:112-146 | Published snapshots are never altered; mints and releases with their audit position are never taken back |
| SingleUse.SiblingsNeedCrossing | internal/sts/sts.go:349-381 | With cache readings in any order, two mints have one parent only if two exchanges consumed it with readings inside its deadline and some step between them entered the cache with a reading past it |
| Siblings.StaleReadingMintsTwice | internal/sts/replay.go:101-139 | From every reachable state, for every released token the cache does not remember, every exchange of it that would mint and all readings first, peak, second with the deadline below the peak and not below the others, the run goes on so that the token gets two successors |
| Siblings.TokenWithTwoSuccessors | internal/sts/replay.go:101-139 | One such run in full, from a user token |
| SingleUse.TwiceNeedsPast | internal/sts/replay.go:101-139 | In a protocol run two successful consumes of one (jti, exp), subject or proof, read inside its deadline with a reading past it between |
| SingleUse.KeptSince | internal/sts/replay.go:73-139 | From a successful consume on, memory and file hold the jti through every kind of step until one reads past its deadline |
| SingleUse.OrderedIsTimely | internal/sts/replay.go:101-139 | Ordered readings are one way to have no such crossing |
| SingleUse.NoTwoChildren | internal/sts/sts.go:349-381 | Without a crossing no STS token is the subject of two mints, through concurrency, failed writes and restarts; and never do two mints share a jti |
| SingleUse.OneRootIffOnePath | internal/sts/sts.go:349-381 | Without a crossing, whoever chose the transaction, two tokens come from one root exchange exactly when the shallower is on the path of the deeper, and then its actors are a prefix |
| SingleUse.LinearDelegation | internal/sts/sts.go:331-381 | Without a crossing, two tokens under one transaction the STS drew lie on one path: the shorter actor list is a prefix of the longer and the equal ones are one token |
| Delegation.RunKeepsInv | internal/sts/sts.go:211-399 | The protocol invariant (history, replay file, audit, in-flight exchanges) holds in every state of every run |
| Delegation.NextKeepsInv | internal/sts/sts.go:211-399 | Every step of every kind keeps it |
| Delegation.PreparedIsApproved | internal/sts/sts.go:286-347 | An exchange past its checks is registered for its workload, inside its window, not denylisted, asks an allowed audience, narrows, and fits max_depth |
| Checks.PrepareDecides | internal/sts/sts.go:254-347 | An exchange gets past its checks if and only if all of 21 written-out conditions on request, attestation, registry entry, denylist, subject token, scope, depth, chain and txn hold, and is refused with the reason of the first that does not |
| Checks.PreparedMeans | internal/sts/sts.go:254-347 | What it goes on with, scopes included, and whose claims a refused one is recorded under |
| Checks.ExchangeDecides | internal/sts/sts.go:254-399 | The same for the whole decision, with the replay cache, its log and the confirmation key: it mints if and only if every condition holds |
| Checks.MintedMeans | internal/sts/sts.go:358-399 | Every claim of a minted token in terms of the request, the subject token and the settings |
| Checks.ExchangeMeans | internal/sts/sts.go:211-252 | The answer and the counters: nothing is given out that is not on record, every recorded decision is counted once |
| Checks.ExchangeRecorded | internal/sts/sts.go:211-236 | The record an exchange leaves in the file, field by field, minted or denied |
| Revocation.DeniedFromReloadOn | internal/sts/sts.go:112-146 | Over any run, an exchange begun after an accepted reload of a denylist naming its agent, workload or principal, with no other list or restart between, mints nothing and is recorded as denied |
| Revocation.PublishedBy | internal/sts/reload.go:26-63 | In a run an accepted reload publishes each part it loaded and keeps the others; no other step but a restart publishes anything |
| Delegation.IssuedHopOk | internal/sts/sts.go:361-381 | A mint extends its subject token by exactly the requesting agent, keeps sub and txn, has one audience, and is described by its audit record, agent, workload, audience and scope included |
| Delegation.IdentifierMeans | internal/sts/sts.go:453-457 | An identifier in newID's format is not empty, is left alone by trimming and by canonicalization, and is no key of a DPoP proof |
| Delegation.SpendProofKeepsInv | internal/sts/http.go:128-142 | A DPoP proof the token endpoint spends in the same cache, however its write ends, keeps the protocol invariant |
| Presentation.RefusedTokenWasPresented | internal/sts/sts.go:349-356 | Over any run, readings in any order, the cache refuses a token inside its window only if an exchange presenting that very token wrote its jti before; no proof, other token or restart can have that effect |
| Presentation.ProofKeyIsNoMint | internal/dpop/dpop.go:20-31 | No proof key is the jti of a minted token, in any reachable state |
| Delegation.AppendKeepsLog | internal/audit/logger.go:257-295 | An append of a complete event, however its write ends, leaves an accepted, time-ordered log; when acknowledged the record is on stable storage at its chain index |
| Delegation.EarlyDenialRecorded | internal/sts/http.go:166-182 | A request denied before its exchange began leaves a record with the reason and nobody's claims |
| Delegation.RestartKeepsLog | internal/audit/logger.go:64-125 | What a kill or a power failure leaves of the log is an accepted prefix holding every acknowledged record |
| Delegation.RestartLeaves | internal/sts/replay.go:73-95 | A restart ends every exchange in flight, takes back no mint or release, and goes on with what the two files still say |
| ExchangeSteps.UninterruptedIsExchange | internal/sts/sts.go:211-252 | The steps of the run model with nothing in between give the outcome and the stores of Exchange, and release the token exactly when it is returned |
| EndToEnd.MintedTokenIsServed | internal/verify/verify.go:58-111 | A minted token is accepted by the gateway of its audience exactly inside its window, under any JWKS listing of its ring, and by no other; its mapping is complete exactly when its transaction and client name are not blank, and then the session accepts it |
| EndToEnd.OwnSubject | internal/sts/sts.go:401-417 | The STS takes its own mint as an STS subject under the ring that signed it and under every later ring that still publishes the kid |
| Sts.Config.Exchange | internal/sts/sts.go:211-252 | Outcome, cache, log and counters are those of one atomic snapshot; nothing is returned that was not audited |
| Sts.Config.Decide | internal/sts/sts.go:254-399 | Checks, consume and mint in the code's order, with its reason for each denial |
| Sts.Config.Reload | internal/sts/reload.go:26-63 | Registry, ring and denylist are all replaced or, on any failed load or refused activation, all left alone; after success each loaded part is the published one and each unconfigured part the old one |
| Sts.InstallIff | internal/token/keyring.go:90-119 | Which signing rings a reload takes: a first one, or one whose active kid is published already and that changes no shared kid's key |
| Sts.PrepareExchange | internal/sts/sts.go:254-347 | The checks before the replay cache, against their specification |
| Sts.VerifySubjectToken | internal/sts/sts.go:401-417 | A subject is an STS token for this issuer or an IdP token; independent of the order the JWKS is listed in |
| Sts.SpentEitherWay | internal/sts/sts.go:349-364 | A consumed subject token mints exactly when there is a confirmation key, and stays spent either way |
| Replay.ReplayCache.Consume | internal/sts/replay.go:101-139 | Verdict and new memory and file for every input, alias and write outcome, against their specification |
| Replay.VerdictMeans | internal/sts/replay.go:101-139 | A consume is refused as replayed if and only if the jti or any alias is held with a deadline not passed, or its own deadline has passed; when it fails and when it succeeds |
| Replay.ConsumeLeaves | internal/sts/replay.go:101-148 | Which entries are left in memory with which deadlines, and what the file has gained |
| Replay.ReplayCache.Recover | internal/sts/replay.go:73-95 | Reopening fails exactly on a corrupt, foreign or overlong line, else rebuilds the last live deadline of each jti |
| Replay.LatestMeans | internal/sts/replay.go:73-95 | What reopening covers: exactly the jtis with a live record, each until its last live record says |
| Replay.ReplayCache.PurgeLocked | internal/sts/replay.go:141-148 | Drops exactly the expired entries |
| Replay.ConsumeRecords | internal/sts/replay.go:101-139 | A success is in memory and on stable storage until exp plus skew, with nothing later in the log shadowing it |
| Replay.ConsumeKeeps | internal/sts/replay.go:101-139 | No later consume, with a reading before the deadline, loses that record or accepts the jti |
| Replay.LossKeepsLogged | internal/sts/replay.go:73-95 | No kill and no power failure loses or shadows it |
| Replay.ReopenAfterConsumeIff | internal/sts/replay.go:73-132 | After an acknowledged consume the log opens again exactly when it had ended in a newline, the entry's encoded line is under 1 MiB, and exp is past 1970 |
| Replay.JsonLengthOfAscii | internal/sts/replay.go:122-126 | The encoded length of an ASCII jti, by how often each escaped character occurs |
| Gateway.LongProofEndsTheLog | internal/sts/http.go:128-142 | Every proof jti of at least 174,763 `<` characters is consumed and acknowledged, and then no time finds the log readable |
| ReplayRuns.AtMostOnce | internal/sts/replay.go:101-139 | With ordered readings one (jti, exp) is consumed at most once over any interleaving, failed or torn write, crash and restart |
| ReplayRuns.ScheduleAdmitsTwoIff | internal/sts/replay.go:101-139 | A sequence of clock readings admits a double consumption if and only if it has a strict peak with a deadline between |
| ReplayRuns.TwiceNeedsPeak | internal/sts/replay.go:101-139 | Between two successes some section ran with a reading past the deadline, while theirs were not |
| ReplayRuns.StaleReadingConsumesTwice | internal/sts/replay.go:101-139 | A concrete double consumption |
| ReplayRuns.KeptUntil | internal/sts/replay.go:73-139 | After a success recovery either fails or covers the jti until its deadline |
| ReplayRuns.RefusedWasWritten | internal/sts/replay.go:73-139 | What is refused as replayed inside its window presents, as jti or alias, a key some earlier call wrote with a live deadline |
| ReplayRuns.ProofsNeverSpendSubjects | internal/sts/replay.go:97-139 | A subject jti is never refused on account of a DPoP proof in the same log |
| ReplayRuns.PurgeInvisible | internal/sts/replay.go:101-148 | With readings in any order every consume is answered as by a cache that never forgets, if no call presents, inside its deadline, a key whose deadline another reading passed meanwhile |
| ReplayRuns.PurgeVisibleIff | internal/sts/replay.go:101-148 | A sequence of readings has calls that are answered otherwise if and only if it has a strict peak with a deadline between |
| AppendLog.ReadableAfterWriteIff | internal/sts/replay.go:73-95 | A full write leaves a readable file readable exactly when the file ended in a newline and the line fits the scanner |
| AppendLog.TerminatedAfter | internal/audit/logger.go:257-295 | Which ways a write can end leave the file on a line of its own |
| AppendLog.RecordsOfCrash | internal/audit/logger.go:257-295 | A power failure leaves a prefix of the records holding every synced one |
| AppendLog.ReadableAfterCrashIff | internal/audit/logger.go:94-125 | What a power failure leaves can be read exactly when the surviving prefix can and no record was cut |
| Audit.AcceptedIff | internal/audit/logger.go:127-254 | A log with one more record is accepted if and only if it was, and the record is complete, in place, linked, canonical in every text field and hashed as it stands |
| Audit.AppendedRecord | internal/audit/logger.go:217-295 | The record an acknowledged append leaves, field by field |
| Audit.AppendDecides | internal/audit/logger.go:257-295 | Which appends are refused, too large, failed or acknowledged, and what the first three leave unchanged |
| Audit.ChainUnique | internal/audit/logger.go:147-210 | Two accepted logs with the same tip are the same log |
| Audit.CanonicalIdempotent | internal/audit/logger.go:217-254 | Canonicalization is idempotent, so an appended record passes its own canonical check |
| Audit.CanonicalHops | internal/audit/logger.go:217-240 | The hop loop keeps the first 32 hops, each bounded |
| Audit.AcceptedSnoc | internal/audit/logger.go:147-181 | A log with one more record is accepted exactly when that record verifies against the tip |
| Audit.Logger.Append | internal/audit/logger.go:257-295 | Status and new state for every write outcome; oversized and unhealthy appends change nothing, a failed one poisons |
| Audit.Logger.Recover | internal/audit/logger.go:94-125 | Opening succeeds exactly on a readable accepted file and restores its tip and length |
| AuditRuns.ChainedAcceptedIff | internal/audit/logger.go:127-181 | An appended record passes recovery exactly when its type and reason are not empty |
| AuditRuns.ReopenAfterAppendIff | internal/audit/logger.go:94-125 | After an acknowledged append reopening gives back the in-memory state exactly when the file had ended in a newline and the event was complete |
| AuditRuns.AppendRecoverSimulation | internal/audit/logger.go:257-295 | After any appends and failures the logger is poisoned and refuses all, or reopening, even after a kill or a power failure, restores exactly its tip and index |
| AuditRuns.LostNewlineEndsTheLog | internal/audit/logger.go:94-125 | A lost newline lets one more record be acknowledged and then the log never opens |
| Utf8.BoundEventStringOf | internal/audit/logger.go:242-254 | The shrinking loop against its specification |
| Utf8.BoundMeaning | internal/audit/logger.go:242-254 | The result is the longest valid prefix of at most 4096 bytes of the repaired string, at most 3 bytes short of the cut |
| Utf8.ValidIff | internal/audit/logger.go:242-254 | A text counts as valid exactly when it is the RFC 3629 encoding of some scalar values |
| Utf8.RepairMeans | internal/audit/logger.go:242-254 | Repair keeps characters and turns a whole run of other bytes into one U+FFFD |
| Utf8.BoundIdempotent | internal/audit/logger.go:242-254 | Bounding twice is bounding once |
| Utf8.BoundaryNear | internal/audit/logger.go:242-254 | In valid UTF-8 a character ends at or within three bytes before any position |
| Trace.Trace | internal/audit/trace.go:54-133 | Output or error for every query and set of files |
| Trace.TraceReturns | internal/audit/trace.go:54-133 | For every query, by transaction, by jti or by both, the output holds exactly the verified and unverified records its transactions select, each as often as the files do, sorted |
| Trace.LoadedRecords | internal/audit/trace.go:205-238 | Loading succeeds exactly when every named file is readable and accepted, and gives the record of each event, field by field |
| Trace.LoadedVisors | internal/audit/trace.go:67-80 | The same for visor files, which have to parse |
| Trace.TraceFails | internal/audit/trace.go:54-80 | Which traces fail, and with which error |
| Trace.RecordOrder | internal/audit/trace.go:135-163 | Undated records last, then time, verified first, file, place in it |
| Trace.LoadAuditRecords | internal/audit/trace.go:205-219 | Loads exactly the readable accepted files |
| Trace.RecordLessIsStrictWeakOrder | internal/audit/trace.go:135-153 | recordLess is a strict weak order, zero times included |
| Trace.VerifiedPart | internal/audit/trace.go:82-133 | The verified part of the output is the selected audit records, sorted, as if no visor file were given |
| Trace.TracedIsTheAnswer | internal/audit/trace.go:54-133 | Whatever stable sort is used, a trace has exactly one answer |
| Trace.TraceNonInterference | internal/audit/trace.go:82-153 | Any two parseable sets of visor files give the same verified records in the same order |
| StableSort.StableSortIff | internal/audit/trace.go:129-131 | A sequence is a sorted, order-keeping rearrangement if and only if it is the one the model computes, so the results hold of any stable sort |
| StableSort.SortIsStable | internal/audit/trace.go:129-131 | Incomparable records keep their order |
| StableSort.FilterSort | internal/audit/trace.go:129-131 | Stable sorting commutes with dropping records |
| Claims.DelegateMirrors | internal/token/claims.go:201-216 | One hop keeps nested act and flat chain mirror images and adds the agent at the end |
| Claims.MirroredHops | internal/token/claims.go:182-216 | The k-th actor of ActorSubs is the one met walking act inwards past the later ones |
| Claims.ActorSubsOf | internal/token/claims.go:182-193 | The loop against its specification |
| Claims.ReplayWindowMatches | internal/token/claims.go:123-152 | The replay deadline and the validator's window end together for every token exactly when the clock is past the first 30 seconds of 1970 |
| Scopes.ScopeSetOf | internal/token/claims.go:219-225 | The words of the text as a set |
| Strings.FieldsMeans | internal/token/claims.go:219-225 | The words of a text are its longest runs without white space |
| Strings.TrimSpaceMeans | internal/sts/sts.go:358-364 | Trimming takes tabs to carriage returns and spaces from both ends and nothing else |
| Scopes.SortStrings | internal/token/claims.go:240-248 | In-place sort: sorted and a permutation |
| Scopes.JoinScopes | internal/token/claims.go:227-238 | One text per set, whatever order the map is ranged over |
| Scopes.SubsetOf | internal/token/claims.go:251-258 | Decides inclusion, in any iteration order |
| Scopes.Intersect | internal/token/claims.go:260-268 | The intersection, in any iteration order |
| Scopes.ScopeSetOfJoined | internal/token/claims.go:219-238 | ScopeSet of JoinScopes is the set again; the text is empty only for the empty set |
| Scopes.SortedEnumerationUnique | internal/token/claims.go:227-248 | A set has one strictly sorted enumeration |
| Scopes.NarrowScope | internal/sts/sts.go:436-451 | The code path against its specification |
| Scopes.NarrowMeaning | internal/sts/sts.go:436-451 | When it refuses, what it issues, and that it never exceeds max_scopes |
| Scopes.HopNarrowsIff | internal/sts/sts.go:436-451 | A hop that is not refused stays within its subject's scope exactly when that text is not empty or max_scopes is |
| Scopes.EmptyScopeWidens | internal/sts/sts.go:436-451 | Two hops from scope read to scope admin |
| Jws.SelectKey | internal/token/jws.go:250-272 | The loop and its fallbacks against their specification |
| Jws.SelectedIff | internal/token/jws.go:250-272 | Which key is selected, by its place among the keys that fit |
| Jws.VerifiesIff | internal/token/jws.go:151-342 | A token verifies if and only if the key selected for it is of the kind its algorithm names, allows that algorithm and signed it |
| Jws.VerifyFails | internal/token/jws.go:151-342 | How a token fails otherwise, the first cause naming the error |
| Jws.OneKeyVerifiesIff | internal/token/jws.go:151-342 | Which tokens verify under a JWKS of one Ed25519, P-256 or RSA key |
| Jws.VerifiedTokenIsSigned | internal/token/jws.go:151-196 | A verified token was signed by a published key of the type and algorithm its header names |
| Keyrings.Keyring.Replace | internal/token/keyring.go:31-73 | Accepts exactly loadable rings that keep shared material and activate a known kid; otherwise nothing changes |
| Keyrings.LoadableIff | internal/token/keyring.go:31-73 | A signing file loads exactly when its kids are named and distinct, its keys usable and the active kid among them |
| Keyrings.AllowedIff | internal/token/keyring.go:90-119 | A ring may follow another exactly when its active kid is published already and no shared kid changes its key |
| Keyrings.MayActivate | internal/token/keyring.go:90-102 | Decides activation exactly |
| Keyrings.PublicMaterialStable | internal/token/keyring.go:104-119 | Decides that shared kids keep their key, whatever order the documents list them in |
| Keyrings.JwksFrom | internal/token/keyring.go:121-133 | Every key once, the active one first |
| Keyrings.RingAcceptsIff | internal/token/jws.go:250-301 | Verification under a ring's JWKS does not depend on its order |
| Keyrings.MintedVerifiesNowAndBefore | internal/token/keyring.go:90-119 | What the current ring signs verifies under its JWKS and the one just before |
| Keyrings.MintedVerifiesWhilePublished | internal/token/keyring.go:104-119 | And under every later one while its kid stays published |
| Keyrings.ReusedKidInvalidatesIff | internal/token/keyring.go:90-119 | For every pattern of a kid's presence over the installs, some accepted run with it refuses a token signed at the first if and only if the kid was away somewhere between |
| Keyrings.ReusedKidInvalidates | internal/token/keyring.go:104-119 | For every kid, away once in three installs is enough, under any listing of the last ring |
| Keyrings.RetirementSafeIff | internal/token/claims.go:132-152 | For every ttl and time, removal leaves no acceptable token exactly in a later second than the last mint plus KeyRetirementWait (or if that token's expiry reads as not set) |
| Keyrings.ExactWaitIsTooShort | internal/token/claims.go:132-152 | Exactly that wait is never safe, whatever the ttl and the last mint |
| Keyrings.RotationSafety | internal/token/keyring.go:31-119 | Over any run of installs a token is past its window or verifies under the current JWKS, if its kid stays published until the wait and a second after the last mint |
| Registry.New | internal/registry/registry.go:75-94 | Accepts exactly version 1 documents with valid agents and no id twice |
| Registry.ValidateDecides | internal/registry/registry.go:96-136 | An agent is valid if and only if seven written-out conditions hold, and is refused with the error of the first that does not |
| Registry.AcceptableMeans | internal/registry/registry.go:75-94 | In an accepted registry every agent is valid and found under its own id |
| Nonce.NonceCache.Issue | internal/dpop/nonce.go:36-52 | New state after collecting and adding |
| Nonce.NonceCache.Has | internal/dpop/nonce.go:55-66 | Decides that a nonce is live |
| Nonce.NonceCache.Consume | internal/dpop/nonce.go:69-85 | Succeeds exactly on a live nonce, which is gone afterwards |
| Nonce.NonceCache.GcLocked | internal/dpop/nonce.go:87-93 | Drops exactly the expired nonces |
| Nonce.NonceLife | internal/dpop/nonce.go:36-93 | A nonce lives exactly through the second 120 s after it was issued, or until it is spent; others are untouched |
| Nonce.GcInvisible | internal/dpop/nonce.go:36-93 | With readings in any order every query is answered as by a cache that never collects, if none asks, inside its deadline, for a nonce whose deadline the reading of another Issue passed meanwhile |
| Nonce.GcVisibleIff | internal/dpop/nonce.go:36-93 | A schedule of Issues, Hases and Consumes has nonces that are answered otherwise if and only if an Issue reads past the deadline of an earlier one and a later query does not |
| Gateway.SpentProofStaysSpent | internal/dpop/dpop.go:167-257 | A proof spent once is refused by the cache for as long as Verify would still accept it |
| Gateway.ReplayJtiInjective | internal/dpop/dpop.go:26-31 | Distinct proofs have distinct replay keys |
| Gateway.VerifyIff | internal/dpop/dpop.go:167-257 | Everything a proof has to be, on token and access requests, if and only if; and what it yields |
| Gateway.GateDecides | internal/gateway/gateway.go:283-324 | The outcome of DPoP admission for every state, proof and write outcome, aliases included |
| Gateway.LoggedProofRefused | internal/gateway/gateway.go:302-317 | A proof whose prefixed or bare jti the replay log still holds is refused by a gate that opened on that log |
| Gateway.DPoPGate.RequireDPoP | internal/gateway/gateway.go:283-338 | Outcome and new caches; a challenge nonce with every 401 and nothing else |
| AdmissionRuns.NoProofAdmittedTwice | internal/gateway/gateway.go:283-324 | In any interleaving of the three cache operations, with restarts that may lose the replay log, each nonce admits at most one request |
| AdmissionRuns.LoggedProofHadLiveNonce | internal/gateway/gateway.go:302-317 | A proof reaches the replay log only after its nonce was live in this process |
| AdmissionRuns.UninterruptedIsDPoP | internal/gateway/gateway.go:283-324 | The three operations with nothing in between are requireDPoP: same caches, admitted in the same cases |
| AdmissionRuns.AdmittedGrows | internal/gateway/gateway.go:283-324 | The history of admissions is only extended |
| VisorAdapter.AcceptedChain | internal/verify/verify.go:58-111 | An accepted chain is a signed token's claims, for this issuer, for this audience alone, inside its window |
| VisorAdapter.VerifyChainIff | internal/verify/verify.go:58-111 | Which tokens the gateway takes, if and only if |
| VisorAdapter.ShortNameMeans | internal/visoradapter/adapter.go:87-93 | The short client name is what follows the last slash, a trailing one aside |
| VisorAdapter.ContextFromChain | internal/visoradapter/actor.go:156-188 | The context with its seal, or none when its structure is invalid |
| VisorAdapter.ContextIff | internal/visoradapter/actor.go:156-188 | Which tokens give a context, and what it says of them |
| VisorAdapter.CompleteIff | internal/visoradapter/adapter.go:40-93 | Exactly which tokens have a complete mapping, under either naming option |
| Session.MappingAgreesWithToken | internal/visorsession/session.go:249-304 | The sequence of checks against their specification |
| Session.ActorChainIds | internal/visorsession/session.go:306-312 | The ids in order |
| Session.ScopesMatchToken | internal/visorsession/session.go:314-317 | Decides equality of scope sets |
| Session.AcceptedIffGatewayMapping | internal/visorsession/session.go:249-304 | A complete mapping passes for a token if and only if it is the gateway's own for that token, under one of the naming options, up to scope order, lineage and a blank workload id |
| Session.GatewayMappingAccepted | internal/visorsession/session.go:249-304 | Every mapping the gateway serves is accepted by the session |
| Session.HashTellsApart | internal/visoradapter/actor.go:63-87 | The sealed hash differs from the gateway's exactly when scopes or workload id do |
| Session.BlankWorkloadAccepted | internal/visorsession/session.go:300-302 | A mapping the gateway never makes that passes |
| Pep.Server.Handle | internal/gateway/gateway.go:164-233 | Reply and whole new state of one request; no reply but "audit unavailable" without its record |
| Pep.Server.Judge | internal/gateway/gateway.go:169-208 | The decision between limiter and audit record, in the code's order, with the keys and the denylist as read for this request |
| Pep.Server.Answer | internal/gateway/gateway.go:195-220 | The record, and only then the reply, its counters and the next nonce |
| Requests.JudgeDecides | internal/gateway/gateway.go:169-208 | A request passes if and only if all of 14 written-out conditions on token, mapping, denylist, proof, nonce and replay log hold, and is refused for the first that does not |
| Requests.HandleMeans | internal/gateway/gateway.go:164-233 | The reply, the counters and the caches after a request in terms of that refusal and of its record |
| Requests.RequestRecorded | internal/gateway/gateway.go:164-270 | The record a request leaves in the file, field by field, and whose claims it shows |
| Requests.JudgeLeaves | internal/gateway/gateway.go:283-338 | Nothing is touched before the proof; a challenge goes out with every answer that asks for another proof and no other; an admitted proof is spent and only its nonce gone |
| Pep.DenyIdentity | internal/gateway/gateway.go:272-281 | Denied exactly for a listed principal, acting agent or agent-position hop, or an unreadable list |
| Pep.AllowedMeans | internal/gateway/gateway.go:164-233 | An allowed request had a signed current token for this audience alone, a mapping its session will accept, no denied principal or hop, a bound proof under a live nonce and an unused jti, and an acknowledged audit record |
| Pep.BooksBalance | internal/gateway/gateway.go:164-233 | After any requests the counters count each once and the log has gained one record per reply that was given |
| Pep.FailsClosedForGood | internal/gateway/gateway.go:260-270 | After a failed audit write every later request is refused |
| Pep.FailedWriteIsUnhealthy | internal/gateway/gateway.go:260-270 | With a record that fits, a request fails closed exactly when it leaves the log unusable |
| RateLimit.TokenBucket.Allow | internal/sts/reload.go:84-102 | Answer and new state |
| RateLimit.NewTokenBucket | internal/sts/reload.go:73-82 | No bucket exactly for a rate that is not positive, else a full one |
| RateLimit.BurstIff | internal/sts/reload.go:73-102 | A new bucket lets through at once exactly as many calls as fit max(1, rate) |
| RateLimit.RateBound | internal/sts/reload.go:73-102 | In any order of readings, from call i to an allowed call j at most max(1, rate) + rate * (stamp_j - stamp_i) are allowed |
| RateLimit.DebtBounded | internal/sts/reload.go:84-102 | A stale reading costs at most the time it lags the highest one |
| RateLimit.PatientCallAllowed | internal/sts/reload.go:84-102 | A call 1/rate past every earlier reading is allowed, whatever their order |
| RateLimit.OrderedCalls | internal/sts/reload.go:84-102 | With ordered readings tokens stay in [0, burst] and a call 1/rate after the last is allowed |
| RateLimit.NeverStarvedIff | internal/sts/reload.go:73-102 | For every rate and time span, a call passes after every history of readings in it exactly when it waits past all of them for what the lowest bucket lacks |
| RateLimit.PatienceNeededIff | internal/sts/reload.go:73-102 | Once the bucket is 1/rate old that wait is exactly 1/rate |
| RateLimit.StaleReadingStarves | internal/sts/reload.go:84-102 | A stale reading takes the bucket ten tokens below zero, and a call 1/rate later is refused |
| IdentFile.Resolver.ResolvePath | internal/identfile/identfile.go:74-106 | Result and shared set against their specification; terminates by hops left, then path length |
| IdentFile.CanonicalIdempotent | internal/identfile/identfile.go:66-106 | A canonical path has no link on any prefix and is its own canonical path |
| IdentFile.EachLinkOnce | internal/identfile/identfile.go:87-105 | A resolution reads each link at most once, even one that fails |
| IdentFile.CanonicalIff | internal/identfile/identfile.go:66-106 | It succeeds exactly when the resolver without a seen set does and reads no link twice, and then they agree |
| IdentFile.RefusedWithoutCycle | internal/identfile/identfile.go:87-97 | A path that is no cycle and is refused |
| IdentFile.LinkLeads | internal/identfile/identfile.go:74-106 | A relative link in a resolved directory leads from that directory, up and down again and never above the root; an absolute one from the root |
| IdentFile.ChainLimit | internal/identfile/identfile.go:74-106 | A chain of n links resolves if and only if n is at most 256 |
| IdentFile.FilesAlias | internal/identfile/identfile.go:43-64 | Answer or error for every two paths |
| IdentFile.RejectAliased | internal/identfile/identfile.go:22-41 | Accepts exactly when every two named files have canonical paths that differ and are not one inode; else reports the first such pair, or the error of the first that cannot be resolved |

## Left out

- Cryptography, base64 and JSON: signatures and hashes are free constructors, encoding is taken to round-trip, and strict
  decoding is the difference between a whole record and anything else.
- HTTP servers, proxying, TLS, JWKS and OIDC fetching, `cmd/`, demo scenarios, the A2A client, JWT-SVID attestation (an oracle giving a workload and a key).
- Reading Authorization headers, building request URIs and proofs (`RequestURI`, `OutboundURI`, `ProveWithNonce`), the retry in `Fetch`,
  argument and environment filtering, `MergeJWKS`, thumbprints: straight-line code with no state.
- Scopes.ScopeSetOf: splits on ASCII white space only, where `strings.Fields` also knows Unicode white space; trimming likewise.
- `json.Marshal` replacing invalid UTF-8 before hashing.
- 64-bit wrap-around of times and of `chain_index`; float rounding in the token bucket (real arithmetic).
- `Append` with a zero clock, and the encoded length of an audit record, which is a parameter.
- Delegation.RunKeepsInv: takes the audit log's clock not to go back while the process runs or over a restart. The
  settings and the IdP keys are fixed over a run.
- SingleUse.LinearDelegation: is about transactions the STS drew; an IdP may name one transaction in many user tokens, and
  `SingleUse.OneRootIffOnePath` then speaks of each root.
- Pep.Server.Handle: one request at a time; the interleaving of the cache operations of concurrent requests is `AdmissionRuns`.
- IdentFile.RejectAliased: `os.Stat` with `os.SameFile` is an oracle, and the file system does not change during the call.
- Visor JSONL parsing: a visor file is its parsed unverified records, or unreadable.
- File modes, locks, rename and directory syncs.
