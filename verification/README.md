# Verified protocols of Authenik8-core

Authenik8-core keeps identities, sessions and tokens in a shared Redis store and changes them with
small protocols: index writes under Lua scripts, compare-and-set loops, locks with a TTL, markers
that expire, rollbacks when an audit sink or a signer throws. This project models those protocols
in Dafny and proves what they promise, for every run.

How the models are built:

- A Redis key is given by what it digests and a stored string by what it encodes: SHA-256 and JSON
  are taken as injective, UUIDs and `jti`s as fresh. A key with a TTL carries a deadline and is as
  good as absent once the clock has reached it (`Redis.dfy`).
- Where calls interleave, a call is a program counter over single Redis commands and service calls,
  and a run is an arbitrary list of events. A theorem about every list is a theorem about every
  interleaving. Signers, audit sinks and risk reports may throw at any call; a client may vanish.
- Where calls are taken one at a time, each source method is a Dafny method over mutable fields,
  proved equal to a function of the old state, and the theorems are about runs of that function.

| file | models |
|---|---|
| `Options.dfy`, `Sequences.dfy`, `Redis.dfy` | what the models share |
| `IdentityStore.dfy`, `IdentityRedis.dfy` | Redis identity adapter: records, both indexes, Lua scripts, the link loop |
| `IdentityMemory.dfy` | memory adapter, and the refinement of one by the other |
| `IdentityEngine.dfy`, `IdentityRuns.dfy` | `resolveOAuth` over the adapter, under every interleaving |
| `IdentityAlone.dfy` | adapter calls and `resolveOAuth` run alone: every answer and write spelled out |
| `RefreshTokens.dfy`, `RefreshRotation.dfy` | refresh rotation, replay, revocation and lock, under every interleaving |
| `RefreshAlone.dfy` | refresh, issue and revocation run alone, for every combination of throwing services |
| `AuthSessions.dfy`, `AuthHistories.dfy` | access sessions, refresh with faults, issuing and revoking everything, call by call |
| `AgentRevocation.dfy` | agent issuance and verification racing revocation |
| `AgentCalls.dfy` | what every accepted verification and every issued token went through, and agent calls run alone |
| `TokenBucket.dfy` | the token bucket, its admission envelope, its TTL and its retry hint |
| `SessionRisk.dfy`, `RiskHistories.dfy` | risk signals, counters, fingerprints and quarantine over histories |
| `AuditClone.dfy` | the budgeted clone of audit metadata |
| `IpAllowlist.dfy` | the lazily cleaned IP allowlist |
| `ClientIp.dfy` | the walk along forwarded hops |

Results where the code falls short of what one might expect, each with a witness and with the
exact condition under which the promise holds:

- `revokeAllSessions` misses a refresh family whose index entry has lapsed: rotation renews the key
  but not the index. Witness: `RotatedFamilyOutlivesIndex`. Exactly what survives:
  `RevokeAllSurvivors`; exactly when nothing does: `RevokeAllLeavesNothing`.
- `revokeAllSessions` throws before revoking anything for a user with more than 10 000 listed
  sessions. Witness: `TooManySessionsSurvive`, after 10 001 logins; the condition is part of
  `RevokeAllLeavesNothing`.
- Eviction of a bucket changes decisions when `capacity > 86400 * refillRate`. Witness:
  `EvictionAdmitsMore`; for whole capacities `EvictionUnobservableIff`.
- A clock that runs backwards lets the bucket admit more than its envelope, for every bucket that
  holds a token at all (`BackwardClockOverspends`). The envelope holds for every timestamp sequence
  on the ratcheted clock (`AdmittedIffEnvelope`), so a run overspends exactly what refills in the
  time by which its clock ran backwards (`OverspendIsDrift`); the two clocks agree exactly when
  timestamps do not decrease (`RatchetIsClock`).
- Metadata in which one object is reached twice loses the second occurrence even without a cycle.
  Witness: `SharedArrayIsLost`; the condition: `CopiedIffUnshared`.
- The text of a bigint is not cut to the string limit. `BigIntsAreNotCut` gives the condition for
  one bigint, `PlainDataIsBoundedIff` for all data within the budget, and `MetadataIsBounded` says that no other
  string of any graph is affected.
- An entry added between the marker reads and the removals of a cleanup can be lost. Witness:
  `CleanupLosesConcurrentAdd`; exactly when: `AddDuringCleanup`.

## Model

| member | source | states |
|---|---|---|
| IdentityStore.WriteKeeps | src/oauth/adapters/redisAdapter.ts:28-30 | The three SETs that end both transactions keep record and indexes in exact agreement and lose nothing, when no other account holds the email or provider |
| IdentityStore.CreateScriptKeeps | src/oauth/adapters/redisAdapter.ts:17-32 | The creation script keeps every index entry exact in both directions and forgets no account, email or owner, in each of its three branches |
| IdentityStore.LinkScriptKeeps | src/oauth/adapters/redisAdapter.ts:34-57 | The link script keeps the indexes exact, lists duplicate-free and at most 32 long, although the limit was checked on an earlier read |
| IdentityStore.AdvanceKeeps | src/oauth/adapters/redisAdapter.ts:114-272 | One Redis command of any adapter call keeps the indexes exact, only extends the store, and leaves the call knowing what its integrity checks test: they never throw |
| IdentityStore.KnowsStable | src/oauth/adapters/redisAdapter.ts:114-272 | What a pending call has learnt stays true whatever other clients commit in between |
| IdentityStore.StaleMeansGrown | src/oauth/adapters/redisAdapter.ts:217-269 | A "stale" reply means the provider list is strictly longer than when it was read and still at most 32, which bounds the retries |
| IdentityRedis.RedisIdentityAdapter.EvalCreateUser | src/oauth/adapters/redisAdapter.ts:17-32 | The Lua transaction, key by key, has the effect and reply of the atomic creation step |
| IdentityRedis.RedisIdentityAdapter.EvalLinkProvider | src/oauth/adapters/redisAdapter.ts:34-57 | The Lua transaction, key by key, has the effect and reply of the atomic link step |
| IdentityRedis.RedisIdentityAdapter.CreateUser | src/oauth/adapters/redisAdapter.ts:159-212 | The method runs exactly the two commands of a creation with any interference between them |
| IdentityRedis.RedisIdentityAdapter.LinkProvider | src/oauth/adapters/redisAdapter.ts:214-272 | The compare-and-set loop runs exactly the command machine of a link against any interference |
| IdentityRedis.CreateRunMeans | src/oauth/adapters/redisAdapter.ts:159-212 | Against any interference a creation never throws: it creates, or returns the current record of whoever owns the provider or holds the email |
| IdentityRedis.LinkRunMeans | src/oauth/adapters/redisAdapter.ts:214-272 | A link lands on top of exactly the store the others left, or refuses and changes nothing |
| IdentityRedis.ContentionMeansFiveLinks | src/oauth/adapters/redisAdapter.ts:217-271 | A link gives up on contention only when the account has five more providers than at the link's first read |
| IdentityMemory.MemoryAdapter.CreateUser | src/oauth/adapters/memoryAdapter.ts:44-69 | Creates, or returns the record that owns the provider, else the one with the email |
| IdentityMemory.MemoryAdapter.LinkProvider | src/oauth/adapters/memoryAdapter.ts:71-102 | Appends the provider to one record in place, or refuses |
| IdentityMemory.ScansFollowIndexes | src/oauth/adapters/memoryAdapter.ts:19-42 | On a store whose indexes agree, each scan returns what the index lookup returns |
| IdentityMemory.AdvanceRefinesMemory | src/oauth/adapters/memoryAdapter.ts:18-102 | Each Redis command either takes effect exactly as the memory adapter's atomic call, with the same answer, or leaves the records alone |
| IdentityRuns.RunIsSound | src/oauth/adapters/redisAdapter.ts:114-272 | In every reachable state of any interleaving the indexes are exact and every client's knowledge is right |
| IdentityRuns.RunsOnlyExtend | src/oauth/adapters/redisAdapter.ts:214-272 | No update is ever lost: accounts, emails and owners stay and provider lists only append |
| IdentityRuns.IndexesAreExact | src/oauth/adapters/redisAdapter.ts:130-157 | In every reachable state lookups return the scan's result, and no two accounts share an email or a provider |
| IdentityRuns.RunsRefineMemory | src/oauth/adapters/memoryAdapter.ts:15-102 | Every interleaved run leaves exactly the accounts the memory adapter has after the same calls run one at a time in the order they took effect, and each of those calls got the memory adapter's answer at its place |
| IdentityRuns.TakesEffectOnce | src/oauth/adapters/redisAdapter.ts:114-272 | Every adapter call takes effect at exactly one of its commands, unless it is a link that gives up, which never does |
| IdentityRuns.NobodyIsLeftOut | src/oauth/adapters/redisAdapter.ts:114-272 | That order is complete: every call that has ended in a run, except a link that gave up, stands in it with the answer its caller holds |
| IdentityEngine.ResumeFits | src/oauth/brain/identityEngine.ts:147-287 | Given a right answer from the adapter the engine makes the right next call or returns the right result; no check of its own throws |
| IdentityEngine.ApplyKeepsSound | src/oauth/brain/identityEngine.ts:124-288 | Every event of every client keeps the invariant of store, adapter calls and engine stages |
| IdentityRuns.TokensNameTheOwner | src/oauth/brain/identityEngine.ts:81-121 | Every result that carries tokens names the account that owns (provider, providerId) in the store, then and after any later events |
| IdentityRuns.LoginsAgree | src/oauth/brain/identityEngine.ts:228-287 | Two logins for one provider identity always name the same account |
| IdentityRuns.ThrowsAreRefusals | src/oauth/adapters/redisAdapter.ts:119-121 | No integrity check of adapter or engine ever throws |
| IdentityRuns.ContentionIsReal | src/oauth/adapters/redisAdapter.ts:217-271 | In every run, an adapter call that gave up on contention saw five other links of the account committed since its own first read |
| IdentityRuns.EngineContentionIsReal | src/oauth/brain/identityEngine.ts:103-103 | The same when the error reaches the caller through the engine |
| IdentityRuns.ProvidersAreAskedFor | src/oauth/brain/identityEngine.ts:89-121 | In every run under every policy an account exists because some call or login asked for exactly its email and first provider, and each further provider was asked for by the account itself or by a login with its email whose flag, the verified or the unverified one, was on |
| IdentityRuns.OnlyTheAccountLinks | src/oauth/brain/identityEngine.ts:155-195 | With both auto-link flags off every provider after an account's first was asked for by a link call or link-mode request naming that account |
| IdentityRuns.LinkRequiredMeansFlagOff | src/oauth/brain/identityEngine.ts:89-101 | In every run a login that is told to link by hand met a policy whose flag for it, verified or unverified, was off |
| IdentityRuns.NobodyHasARole | src/oauth/adapters/redisAdapter.ts:165-174 | In every run no account has a role |
| IdentityAlone.LookupAloneIs | src/oauth/adapters/redisAdapter.ts:114-157 | On a store whose indexes agree each lookup by itself returns what the store holds, throws nothing and changes nothing |
| IdentityAlone.CreateAloneIs | src/oauth/adapters/redisAdapter.ts:159-212 | A creation by itself, field by field: the provider's owner, else the email's holder, else a new account with that email, no role and that one provider, and exactly its two index entries |
| IdentityAlone.LinkAloneIs | src/oauth/adapters/redisAdapter.ts:214-272 | A link by itself: each refusal with its condition, nothing changed by any of them, or the provider appended and indexed |
| IdentityAlone.LinkModeAloneIs | src/oauth/brain/identityEngine.ts:147-226 | An authenticated link request by itself, decided on the store: every answer and the whole new store |
| IdentityAlone.LoginAloneIs | src/oauth/brain/identityEngine.ts:228-287 | A login by itself under any policy, decided on the store: every answer and the whole new store |
| IdentityAlone.EngineChecksItsAdapter | src/oauth/brain/identityEngine.ts:52-121 | Whatever an adapter answers, tokens and success go only to an account that came back with the provider, and with the email or the id asked for; a link is asked for only for the authenticated account, or for one with the login's email under a policy that allows it |
| IdentityAlone.AnswersAreHonest | src/oauth/adapters/redisAdapter.ts:114-212 | Over any store, corrupt ones included: a record that a call returns is well-formed, stored, and has the id, email or provider that its index entry promises |
| IdentityAlone.ReadsAreHonest | src/oauth/adapters/redisAdapter.ts:217-246 | Over any store a link goes on only from a well-formed record of that id, and what it will write is well-formed and holds the provider |
| IdentityAlone.FiveAttempts | src/oauth/adapters/redisAdapter.ts:217-271 | What each reply of the transaction comes to; a stale one is followed by another attempt four times and by the contention error at the fifth |
| RefreshRotation.RunIsSound | src/auth/refreshService.ts:178-414 | In every interleaving, with locks and keys expiring at any time, stored and pending tokens are unspent and no token is spent twice |
| RefreshRotation.ExchangedAtMostOnce | src/auth/refreshService.ts:243-312 | Of all calls that present one token at most one returns a pair, however locks expire |
| RefreshRotation.SpentTokenIsDead | src/storage/RedisTokenStore.ts:4-14 | An exchanged token is never again the stored value of any family, so no later comparison accepts it |
| RefreshRotation.OnlyIssueRevives | src/auth/refreshService.ts:206-211 | An absent family key comes back only through the SET of `generateRefreshToken` for that family |
| RefreshRotation.ClosedFamilyStaysClosed | src/auth/refreshService.ts:264-283 | Once a family key is gone and no issue is pending, no interleaving without a new issue rotates or recreates it |
| RefreshRotation.NoRefreshAfterRevocation | src/auth/refreshService.ts:386-414 | A refresh that returns a pair after its family was closed had made its exchange before |
| RefreshRotation.DeletionCloses | src/auth/refreshService.ts:457-463 | The deletion that a revocation, a refresh ending its family or a failed issue makes leaves the family without a key, and closed unless an issue is pending |
| RefreshRotation.DeletionIsNext | src/auth/refreshService.ts:264-312 | A replay, a lost race, a failed access signer or audit sink and a failed issue all lead to that deletion |
| RefreshRotation.DeletionIsFinal | src/auth/refreshService.ts:243-312 | In every interleaving, once such a deletion is made and no issue of the family is pending or begun later, every call that returns a pair for the family had made its exchange before the deletion |
| RefreshRotation.UnexpiredLockExcludes | src/utility/lockHelper.ts:6-32 | From a client's acquisition until its 30 seconds run out, as long as the client has not let go, the key holds its value and deadline and every attempt of another client to get into the family found it busy, in every interleaving |
| RefreshRotation.ForeignReleaseIsHarmless | src/utility/lockHelper.ts:22-31 | When two clients both believe they hold a family's lock, the release of the one whose value is not in the key changes nothing |
| RefreshAlone.GoIsRun | src/auth/refreshService.ts:178-312 | What is said of a call by itself is what the interleaved machine does when only its steps are scheduled |
| RefreshAlone.RefreshAloneIs | src/auth/refreshService.ts:243-312 | A whole refresh by itself, for every store and every combination of throwing services: when it is refused with nothing changed, when it ends the family, which pair it returns, and that its lock is gone |
| RefreshAlone.IssueAloneIs | src/auth/refreshService.ts:178-241 | A whole issue by itself: the new token stored for its TTL, or its key gone again |
| RefreshAlone.RevocationAloneIs | src/auth/refreshService.ts:457-468 | A whole revocation by itself removes the key of its family and nothing else |
| AuthSessions.AuthService.SignAccess | src/auth/jwtAuth.ts:229-269 | Issues and stores an access token; rolls the session back when the audit sink throws |
| AuthSessions.AuthService.RevokeFamily | src/auth/refreshService.ts:457-468 | Deletes the key, the index field and the session of one family |
| AuthSessions.AuthService.GenerateRefreshToken | src/auth/refreshService.ts:178-241 | Stores and indexes a refresh token; revokes the family when the audit sink throws |
| AuthSessions.AuthService.RotateTokenIfEnabled | src/auth/refreshService.ts:386-414 | Swaps the stored token by compare-and-set, or revokes the family after a lost race |
| AuthSessions.AuthService.RefreshToken | src/auth/refreshService.ts:243-312 | A whole refresh, command by command, with lock and rollbacks, is the specified step |
| AuthSessions.AuthService.RevokeAllFamilies | src/auth/refreshService.ts:355-376 | The loop in batches of 100 deletes every listed key, then index and sessions, and nothing else |
| AuthSessions.AuthService.RevokeAllSessions | src/createAuthenik8.ts:167-173 | Revokes every listed session and every indexed family, or refuses a list longer than 10 000 |
| AuthSessions.AuthService.IssuePair | src/createAuthenik8.ts:137-159 | Issues an access and a refresh token; revokes the session when the refresh token fails |
| AuthHistories.RefreshIsAtomic | src/auth/refreshService.ts:262-311 | Whatever throws, a refresh returns a pair the store accepts, with the old token spent, or throws; which of the two states it then leaves, unchanged or fully revoked, is stated case by case |
| AuthHistories.RefreshReleasesItsLock | src/auth/refreshService.ts:309-311 | A lock the call acquired is released on every path, a lock it did not get and all other locks are left alone |
| AuthHistories.RefreshSucceedsIff | src/auth/refreshService.ts:243-307 | The exact condition under which a refresh succeeds |
| AuthHistories.RefreshReportsIff | src/auth/refreshService.ts:257-281 | Exactly when a refresh brings its family into quarantine: it met somebody else's lock, a token that is not the stored one, or a key lost while the signer worked, and the risk service quarantines when told |
| AuthHistories.RefreshKeepsOthers | src/auth/refreshService.ts:243-312 | However a refresh ends and however long its signer takes, every other family, also of the same user, has the key, index field and session that waiting alone would have left it |
| AuthHistories.IssueTokensIsAtomic | src/createAuthenik8.ts:137-159 | A login pair is issued, whole, exactly when no signer and no audit sink throws, its session with the metadata it had or else the login's; otherwise no session is left; a failed audit of the refresh token leaves no trace of the family |
| AuthHistories.IssueKeepsOthers | src/createAuthenik8.ts:137-159 | A login, failed or not, leaves every other family's key, index field and session as they were |
| AuthHistories.AcceptedIffLastSigned | src/auth/jwtAuth.ts:414-438 | After any history an access token is accepted if and only if its lifetime has not passed since it was signed, it is the last one signed for its session, nothing revoked the session since and the session is not quarantined; the shared hash TTL never drops it early |
| AuthHistories.SessionKeepsMetadata | src/auth/sessionStore.ts:193-210 | Through every history in which a session is not lost its device, address and creation time stay what they were |
| AuthHistories.RevokeAllSurvivors | src/auth/refreshService.ts:328-384 | Exactly which refresh keys survive `revokeAllSessions`, that no session of the user does, and that other users keep everything |
| AuthHistories.RevokeAllLeavesNothing | src/createAuthenik8.ts:167-173 | The composed revocation leaves no accepted token of the user if and only if there was none before, or the session list is within 10 000 and it or the index names every accepted family |
| AuthHistories.RevokeAllIsComplete | src/auth/refreshService.ts:470-478 | While the index never runs out it names every live family through every history of logins, issues, refreshes and revocations, so the composed revocation is complete for every list within 10 000 |
| AuthHistories.RotatedFamilyOutlivesIndex | src/auth/refreshService.ts:386-414 | A concrete history in which a rotated token outlives its index entry and survives `revokeAllSessions` |
| AuthHistories.TooManySessionsSurvive | src/auth/refreshService.ts:333-337 | After 10 001 logins of one user the revocation changes nothing and tokens stay accepted |
| AgentRevocation.RunIsSound | src/agent/agentIdentity.ts:370-469 | In every interleaving a session stored for a swept agent still has an issuer that will see the marker |
| AgentRevocation.RevokedAgentKeepsNoSession | src/agent/agentIdentity.ts:370-381 | Without activation, once a revocation has returned and the issues that had stored something have finished, no session of the agent is stored |
| AgentRevocation.SweptTokenNeverVerifies | src/agent/agentIdentity.ts:305-322 | A token stored when its agent is swept is accepted afterwards only by a verification that had already matched it, even after later activation |
| AgentRevocation.RevokedAgentNeverVerifies | src/agent/agentIdentity.ts:293-344 | While an agent stays revoked none of its tokens is accepted, except by a verification past its last look at the marker |
| AgentCalls.AcceptedWasChecked | src/agent/agentIdentity.ts:293-344 | In every interleaving a verification accepts a token only after its own steps found it not quarantined, its agent not revoked, the token stored as its session's current one, the agent active once more, the registry's grant covering it and the delegating session alive |
| AgentCalls.IssuedWasChecked | src/agent/agentIdentity.ts:395-469 | In every interleaving an issued token belongs to an agent that was active before it was authorized and again after it was stored, and was audited |
| AgentCalls.VerificationAloneIs | src/agent/agentIdentity.ts:293-344 | Exactly when a verification by itself accepts; it changes nothing |
| AgentCalls.IssueAloneIs | src/agent/agentIdentity.ts:395-469 | A whole issue by itself: refused with nothing stored, taken back when the audit sink throws, or stored as its session's token with the TTL of the hash renewed |
| AgentCalls.RevocationAloneIs | src/agent/agentIdentity.ts:370-381 | A whole revocation by itself marks the agent and removes its sessions and no other's |
| AgentCalls.ActivationAndDropAloneAre | src/agent/agentIdentity.ts:366-393 | An activation lifts exactly the marker, and dropping a session exactly that session |
| TokenBucket.TokenBucket.Consume | src/security/limiter.ts:8-32 | The script, updating both hash fields and the TTL in place, decides and stores what the specification says, also as seen at every later time |
| TokenBucket.AdmittedIffEnvelope | src/security/limiter.ts:15-31 | From a full bucket any request sequence, whatever its timestamps, is admitted in full if and only if every contiguous run fits capacity plus refill over its span on the ratcheted clock |
| TokenBucket.AdmittedLeaveLeastSlack | src/security/limiter.ts:18-29 | The tokens left after any admitted run are the least slack of all its suffixes on that clock |
| TokenBucket.OnlyAdmittedCount | src/security/limiter.ts:15-31 | Any mixed run leaves the bucket where its admitted requests alone would |
| TokenBucket.DenialsAreNecessary | src/security/limiter.ts:21-31 | In any run the admitted requests satisfy the envelope, and a request is denied if and only if admitting it would break it |
| TokenBucket.DeniedLeavesNoTrace | src/security/limiter.ts:21-26 | A denied request changes nothing that a later request can see if and only if it was not timed before the last refill, or the bucket was full |
| TokenBucket.FullWhenEvicted | src/security/limiter.ts:66-69 | Every bucket is full again when its TTL runs out if and only if capacity <= 86400 * refillRate |
| TokenBucket.EvictionUnobservable | src/security/limiter.ts:66-69 | Under that bound the evicted bucket and the one that lives for ever are equal and decide alike in every run, whatever its timestamps |
| TokenBucket.EvictionUnobservableIff | src/security/limiter.ts:66-69 | For whole capacities eviction changes no decision of any run if and only if capacity <= 86400 * refillRate |
| TokenBucket.EvictionAdmitsMore | src/security/limiter.ts:66-69 | A run past that bound whose last request is denied, and admitted when the bucket was evicted |
| TokenBucket.TtlIs | src/security/limiter.ts:66-69 | The TTL is the least number of whole seconds in which an empty bucket would fill twice, but at least 60 and at most 86400 |
| TokenBucket.RetryAfterIsLeast | src/security/limiter.ts:101-105 | A lone retry after k seconds is admitted if and only if the capacity is at least one token and k >= retryAfter |
| TokenBucket.RemainingIsBurst | src/security/limiter.ts:28-31 | The advertised remaining count is exactly the number of requests an immediate burst can still make |
| TokenBucket.BackwardClockOverspends | src/security/limiter.ts:18-29 | On the clock's own times some run exceeds the envelope, for exactly those buckets that can hold a token |
| TokenBucket.OverspendIsDrift | src/security/limiter.ts:18-29 | Admission in full allows each run exactly what refills in the time by which the clock ran backwards within it, and not more |
| SessionRisk.SessionRiskService.IncrementSignal | src/risk/sessionRiskService.ts:361-374 | INCR, and EXPIRE on the first count only |
| SessionRisk.SessionRiskService.Quarantine | src/risk/sessionRiskService.ts:284-321 | Refuses an empty list; else merges old and new reasons, keeps the first quarantine time and renews the lease, before the audit sink may throw |
| SessionRisk.SessionRiskService.ReportSignal | src/risk/sessionRiskService.ts:184-229 | Ignores, deduplicates, counts and quarantines as specified, and throws exactly when the audit sink does after a counted report, with everything written |
| SessionRisk.SessionRiskService.Lift | src/risk/sessionRiskService.ts:323-340 | A release deletes the record and all counters and keeps the fingerprints, before the audit sink may throw |
| SessionRisk.SessionRiskService.Assess | src/risk/sessionRiskService.ts:231-270 | The loop over the two context changes stops at the first report that quarantines or throws |
| RiskHistories.QuarantinedIff | src/risk/sessionRiskService.ts:272-340 | A principal is quarantined if and only if risk is enabled and the lease of some trigger that nothing released since still runs; what is read parses |
| RiskHistories.WrittenRecordsParse | src/risk/sessionRiskService.ts:84-124 | Every record written has between one and five distinct reasons, as the parser demands |
| RiskHistories.RecordTellsItsHistory | src/risk/sessionRiskService.ts:284-308 | A quarantine names the time of the trigger that began it, exactly the reasons of all triggers since, and the moment its key expires |
| RiskHistories.CounterIsWindowed | src/risk/sessionRiskService.ts:361-374 | A counter reads as the number of counted reports since its fixed window opened, zero after the window or a release |
| RiskHistories.CountedIff | src/risk/sessionRiskService.ts:376-389 | A fingerprinted report counts if and only if no counted report of that fingerprint lies within the last window, releases notwithstanding |
| RiskHistories.CountedAtIff | src/risk/sessionRiskService.ts:196-205 | Which reports of a history count: the service is on, the signal's action is not to ignore it, and no counted report of the same fingerprint lies within the last window |
| RiskHistories.TriggersIff | src/risk/sessionRiskService.ts:207-211 | Which events of a history quarantine, signal by signal: a replay always, a concurrent refresh or suspicious agent at the configured count of its window, a context change when its action is to quarantine |
| RiskHistories.ReasonsAreAppended | src/risk/sessionRiskService.ts:293-302 | A further trigger leaves the reasons recorded so far in front, in their order |
| RiskHistories.AssessIsHistory | src/risk/sessionRiskService.ts:231-270 | A context check is exactly the history of its reports: the address if it is known and differs, then the device if it is known and differs unless the first report threw or quarantined; it throws when one of them does and otherwise returns the state it leaves |
| AuditClone.AuditCloner.CloneAuditValue | src/audit/auditDispatcher.ts:73-127 | The traversal that mutates budget and seen set computes the specified clone or exception |
| AuditClone.AuditCloner.CloneArray | src/audit/auditDispatcher.ts:100-104 | Elements in order, holes kept; an exception in an element ends the array |
| AuditClone.AuditCloner.CloneObject | src/audit/auditDispatcher.ts:106-126 | Properties in order, blocked keys skipped, long keys cut, an exception replaced by a note |
| AuditClone.CloneKeepsOrder | src/audit/auditDispatcher.ts:106-126 | Properties taken in the source's enumeration order, integer-like keys first, end up in the clone's enumeration order |
| AuditClone.MetadataIsBounded | src/audit/auditDispatcher.ts:73-139 | On every graph: each object expanded at most once and at most 2048 in all, visits and result size bounded by that, depth at most 8, widths and keys within the limits, and so every string but the text of a bigint of the graph |
| AuditClone.BigIntsAreNotCut | src/audit/auditDispatcher.ts:91-91 | The text of a bigint passes uncut, and keeps the string limit exactly when it does so by itself |
| AuditClone.UnsharedIsCopied | src/audit/auditDispatcher.ts:73-127 | Every graph that is visited within the budget and in which no object is reached twice is cloned as its plain deep copy, cut at the limits of depth, width and length, or both throw |
| AuditClone.CopiedIffUnshared | src/audit/auditDispatcher.ts:94-126 | Data of any depth, width and string length within the budget is cloned as that copy if and only if no object is reached twice |
| AuditClone.VisitsAreNodes | src/audit/auditDispatcher.ts:79-80 | The budget that such data uses up is exactly the number of nodes of its copy |
| AuditClone.PutAssigns | src/audit/auditDispatcher.ts:116-123 | Two keys that are cut to the same text share one property, which keeps its place and takes the later value |
| AuditClone.SharedArrayIsLost | src/audit/auditDispatcher.ts:94-95 | A graph without a cycle, within all limits, that does not come back |
| AuditClone.PlainDataIsBoundedIff | src/audit/auditDispatcher.ts:88-91 | The clone of unshared data within the budget keeps every limit if and only if each of its bigints has a short text |
| IpAllowlist.SecurityModule.ActiveEntries | src/security/ipService.ts:202-236 | The batched loops return exactly the marked entries in order and remove exactly the others |
| IpAllowlist.SecurityModule.IsAllowed | src/security/ipService.ts:238-261 | Exact script, then cleaned networks, with the specified cleanup |
| IpAllowlist.SecurityModule.AddIP | src/security/ipService.ts:263-292 | Adds member and marker, or refuses bad input with nothing changed |
| IpAllowlist.SecurityModule.RemoveIP | src/security/ipService.ts:294-310 | Removes member and marker |
| IpAllowlist.SecurityModule.ListIPs | src/security/ipService.ts:312-322 | Lists exactly the live entries, each once, sorted, and cleans both sets |
| IpAllowlist.RunAgrees | src/security/ipService.ts:202-322 | Through every history the lazily cleaned sets agree with a plain map from entry to expiry |
| IpAllowlist.AnswersAgree | src/security/ipService.ts:238-322 | Lookups and listings answer as that map does; input that does not parse is refused and cleans up nothing |
| IpAllowlist.ListingIsUnique | src/security/ipService.ts:321-321 | The sorted listing is a function of the live entries, whatever order the sets are read in |
| IpAllowlist.AddDuringCleanup | src/security/ipService.ts:202-236 | An entry added during a cleanup of either set survives if and only if it was not a member whose marker had gone |
| IpAllowlist.CleanupLosesConcurrentAdd | src/security/ipService.ts:202-236 | A history that meets the condition: the network added during a lookup's cleanup is unknown to the next lookup |
| ClientIp.ResolveClientIp | src/security/requestContext.ts:119-160 | The resolver, branch by branch, computes the specified address |
| ClientIp.WalkHops | src/security/requestContext.ts:149-158 | The loop from the right stops at the first untrusted hop |
| ClientIp.ClientIsRightmostUntrusted | src/security/requestContext.ts:149-158 | The walk ends at the rightmost untrusted hop, or the leftmost hop if all are trusted |
| ClientIp.TrustedChainResolves | src/security/requestContext.ts:142-158 | Behind a trusted peer the answer is that hop of the header |
| ClientIp.EveryRequestResolves | src/security/requestContext.ts:124-159 | For every request: exactly when the answer is "unknown", when it is the peer itself, and otherwise which hop of the header |
| ClientIp.SplitWithoutComma | src/security/requestContext.ts:142-142 | Text without a comma is a single hop, which with the lemma on commas determines every split |
| ClientIp.SplitAtComma | src/security/requestContext.ts:142-142 | A header split at a comma is the hops of both sides, in order |
| ClientIp.PrependedHopsDoNotMatter | src/security/requestContext.ts:142-158 | Once the header holds an untrusted hop, text prepended to it or taken from its left never changes the answer |

## Left out

- Signing and verifying tokens, SHA-256, base64url, constant-time comparison and UUIDs: an injective fingerprint, fresh serials and an expiry time stand for them.
- Character, length and byte limits of identifiers, emails, records and headers other than those named above: such input is refused before the modelled code runs.
- Redis crashes, partial command failure and a store that misses optional operations; clients and Redis share one clock.
- Express middleware, Helmet, `rate-limiter-flexible`, Redis connection setup, the Google and GitHub exchanges, OAuth state, guest tokens and response streaming.
- Floating-point rounding and Lua number formatting in the bucket: reals are used.
- Parsing of addresses and networks and the subnet test: parameters of the models that use them.
- Audit emission after agent rejections and allowlist changes: it touches no modelled state.
- Agent scopes, claims and the registry: one answer of the environment at each point where they are asked.
- Session metadata of agents, `listSessions` of agents and corrupt stored sessions.
- `deepFreeze`, which freezes a tree that is already detached.
- `reset` and `dump` of the memory adapter, and aliasing of its records, which it prevents by copying.
- IdentityRedis.CreateRunMeans: for an email or provider already taken the returned record is the current one, which may have grown since the script ran.
- RefreshRotation.RunIsSound: index and session commands appear as steps without state, since neither guards rotation; their effect is in `AuthSessions`.
- RefreshRotation.UnexpiredLockExcludes: nothing is claimed about exclusion once a lock has expired; the other theorems do not need it.
- AuthHistories.RefreshIsAtomic: one refresh running alone; an unlocked `revokeSession` between the swap and the access signer can leave a session behind.
- AuthHistories.AcceptedIffLastSigned: without a request observation and with a session store configured.
- RiskHistories.QuarantinedIff: operations of one principal, one at a time; concurrent `quarantine` calls may lose each other's reasons.
- TokenBucket.EvictionUnobservableIff: for a fractional capacity above the bound the difference that eviction makes can be smaller than one millisecond of refill, and whether a decision shows it depends on how that refill divides a token; below the bound, and for capacities under one token, `EvictionUnobservable` and `SmallBucketsStayFull` are unconditional.
- AuditClone.CloneKeepsOrder: a proxy that lists its own keys in another order than the runtime would is not covered.
- IpAllowlist.RunAgrees: calls one at a time; `AddDuringCleanup` says what remains otherwise.
