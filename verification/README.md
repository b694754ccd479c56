# Verified model of the gateway's stateful kernels

The gateway keeps one-time codes, rate-limit queues, request bodies, channel records
and usage counters behind small state machines, list algorithms and arithmetic
kernels. This project models the ones with real invariants and proves what they
promise: over every run and every interleaving where there is concurrency, and for
every input where there is none.

| file | what it models |
|---|---|
| `Verification.dfy` | the one-time code store: its atomic specification, and the mutex-guarded map that implements it |
| `RedisVerification.dfy` | the same store in Redis, shared by any number of instances through WATCH, read, MULTI/EXEC with three attempts, and a proof that it refines the specification |
| `PasswordReset.dfy` | `ResetPassword`: one request, and all runs of concurrent requests over the Redis store |
| `WorkerPool.dfy` | the health check's counters, and the pool of channel-test workers as a transition system |
| `RateLimiter.dfy` | the sliding-window limiter against a specification that remembers every admission |
| `AdmissionLimiter.dfy` | the four-scope admission limiter and its release closures |
| `BodyStorage.dfy`, `UsageAccounting.dfy` | request bodies in memory and on disk, and the atomic usage counters |
| `Common.dfy` | results, bytes and channel states shared by the other files |
| `Strings.dfy` | the parts of Go's `strings` package the models rely on |
| `UpstreamModels.dfy` | detecting and applying differences between a channel's models and its upstream |
| `MultiKey.dfy` | the key list of a multi-key channel and the three maps keyed by position |
| `BasePath.dfy` | reading BASE_PATH, stripping it from requests, restoring it on redirects |
| `ConfigImport.dfy` | the declarative channel import and the watcher of its file |
| `OggScanner.dfy` | the page scan behind the duration of an Opus file |
| `QuotaMath.dfy` | rounding and saturating quota conversions, and the settlement of a test |

State that the source updates in place is a class here, proved against a function on
values; protocols are transition systems whose runs are sequences of actions.

## Where the code does less than it seems to promise

Each of these has the failing family and, where there is one, the exact condition
under which the promise holds.

- A Redis claim or release may end without effect after three lost races
  (`ThreeLostRaces` builds the run, for every key and code). In every run that takes at
  least three changes of the key between the beginning of the call and its end
  (`GivingUpTakesThreeChanges`). After a connection error a call may have taken effect
  although it reports a failure, or take effect later, and a verify whose read fails
  answers false. None of this gives a code a second holder or a second commit
  (`OneHolderOneCommit`).
- The deletion after a reset is not conditioned on the code. It takes another token with
  it, usable or held by another request, exactly when that token was stored after the
  claim of the reset and still is (`DeleteTakesAnotherIff`). A run in which it
  does is built for every key and every two codes (`OlderResetDeletesNewerToken`).
- The limiter agrees with the full history for durations up to the expiry plus one
  second; for every longer one and every limit it admits a request that the admissions
  so far forbid (`LongerDurationIsUnsound`).
- A body created from a stream obeys its limit unless the limit is the largest int64:
  the limit plus one wraps around and every body becomes empty
  (`StreamLimitRespectedIff`, `LargestLimitLosesTheBody`). The limit is a parameter of an
  exported function; the limit of a request is a multiple of a megabyte, so no request
  reaches the exception (`RequestLimitIsRespected`).
- The cap on disk usage is checked against the announced length of a stream and charged
  with the bytes written (common/body_storage.go:314 and :187). A decompressed body keeps
  the length of its compressed form (middleware/gzip.go:28-95, common/gin.go:66-69). The
  sum of the check is an int64, so usage plus a length near the largest int64 is negative
  and passes. Without overlap the cap is a bound for a kind of creation exactly when it
  writes nothing, or its length cannot overflow the sum and it writes no more than was
  checked or never passes (`CapHoldsIff`, `AnnouncedLengthDecidesTheCap`; the failing runs
  are in `LargerThanAnnounced` and `OverflowPassesTheCheck`). The length is a parameter of
  an exported function; an uncompressed request body that falls short of its announced
  length ends in a read error instead of a storage. With overlap even honest creations
  exceed the cap (`OverlapExceedsCap`).
- Detect and apply-all is a fixpoint exactly when the ignore rules survive the
  additions, and it fails when a `regex:` rule is itself offered as a model
  (`ApplyAllIsFixpointIff`, `RegexLookAlikeBreaksFixpoint`). Through the stored,
  comma-separated column it also takes that no added name holds a comma: `a,b` comes back
  for ever (`AcceptingAllSettlesIff`, `CommaNameComesBack`).
- `delete_disabled_keys` on a channel whose keys are all automatically disabled
  deletes none and enables all of them: `Channel.Update` does not write an empty key
  column (`MultiKey.Channel.DeleteDisabledKeys`). A key list whose first or last key
  becomes empty is not read back as written (`MultiKey.StoredKeys`); times and reasons,
  which `Channel.Update` does not trim, then stay behind beyond the list exactly when they
  do not fit it, which can be told before the call (`MultiKey.Perform`,
  `MultiKey.StrandedEntry`).
- The documentation of the import (docs/channel/config-import.md:188-189) lets the file
  rule type, key, address, models, group and overrides, and keeps fields it leaves out.
  The second half holds for the optional fields only. A ruled field that is left out is
  reset: the group to `default`, the base URL to that of the type, overrides to `{}`. The
  recorded states of the keys are always dropped (`ConfigImport.ImportedFields`; the exact
  conditions are in `OmittedIsKeptIff`).
- The same documentation (line 124) says that status 0 disables a channel. A channel
  created with status 0 is stored with status 1, because the column has a default and
  the ORM replaces zero values on insert. Importing twice therefore equals importing
  once exactly when every channel set to status 0 existed before (`ImportTwiceIff`);
  the second import always settles (`ImportConverges`).
- The import writes whole rows from copies loaded in its preflight. What another writer
  changes in a balance or a used quota in between survives exactly when no entry of the
  file updates the channel (`ConcurrentChangeSurvivesIff`).
- The watcher treats a returning content as unchanged even if another content was
  written in part in between. Over every run of ticks, the table still is what the
  remembered content says exactly when the net effect of what was written since agrees
  with it (`RememberedIsSettledIff`); `PartialFailureDrifts` is the failing family and
  `DriftInstance` a member of it for every name and two keys.
- A redirect to the prefix followed by anything but a slash gets the prefix twice
  (`PrefixedLocationIsKeptIff`).

## Assumptions

- Redis executes each command atomically, and the expiry of a watched key aborts EXEC,
  also when its caller no longer waits for it. A registration takes effect at most once.
- Reset tokens are fresh. A request makes its store calls in the order of its handler
  and runs one call at a time. The committed flag of the password update tells the truth.
- Clocks do not run backwards. Each key has one limit of at least 1 and one duration.
- Names and keys are compared exactly, as a case-sensitive database collation does.
- The content of the watched file is compared directly where the source compares
  SHA-256 hashes. Over a run of ticks the upstream model lists, the environment variables
  and the outcome of validation stay the same, and nobody else writes channels.
- Fewer than 2^63 bytes are on disk, so the usage counters themselves do not overflow.
- `testChannel`, the upstream model list, regular expressions, JSON encoding, channel
  validation and the outcomes of mail and database writes are inputs, quantified over.

## Model

| member | source | states |
|---|---|---|
| `VerificationSpec.ClaimThenRelease` | common/verification.go:167-222 | A claim shuts out every other user of the code, and a release gives back exactly the store the claim was made on |
| `VerificationSpec.RotatedCodeIsInert` | common/verification.go:209-222 | After a token was re-issued, claiming or releasing the older code changes nothing |
| `VerificationMap.ExpiredIsDeadline` | common/verification.go:132-136 | The comparison in whole seconds is the exact deadline of ten minutes |
| `VerificationMap.ViewLater` | common/verification.go:249-256 | Time passing on the map is expiry in the specification |
| `VerificationMap.CodeMap.RegisterCode` | common/verification.go:99-113 | Registering is the atomic Register on what callers can see, whether or not the sweep runs |
| `VerificationMap.CodeMap.VerifyCode` | common/verification.go:128-143 | True exactly for an unexpired, unclaimed entry with this code |
| `VerificationMap.CodeMap.ClaimCode` | common/verification.go:167-184 | Succeeds exactly when the code is usable, with the effect of the atomic Claim; a refusal changes nothing |
| `VerificationMap.CodeMap.ReleaseClaim` | common/verification.go:209-222 | Releases only its own code |
| `VerificationMap.CodeMap.DeleteKey` | common/verification.go:236-246 | Removes the key whatever code it holds |
| `VerificationMap.CodeMap.RemoveExpired` | common/verification.go:249-256 | The sweep drops exactly the expired entries, and no caller can observe it |
| `RedisVerification.NextEvolves` | common/verification.go:54-84 | Versions only grow, and a key with the same version has the same value |
| `RedisVerification.InvStep` | common/verification.go:54-84 | Every step of every instance keeps the link between watched version and read value that makes EXEC sound |
| `RedisVerification.HashesStayWellFormed` | common/verification.go:73-84 | No write revives an expired key or leaves a hash without its code or its time to live |
| `RedisVerification.StoreCodeAgrees` | common/verification.go:115-126 | The pipelined registration is the atomic Register |
| `RedisVerification.LookAgrees` | common/verification.go:145-157 | A verify whose read succeeds answers what the atomic store would answer at that point |
| `RedisVerification.CommandSimulates` | common/verification.go:115-157 | Registering, verifying, deleting and expiry, with and without errors: one atomic operation each, a failed read being none |
| `RedisVerification.SlowSimulates` | common/verification.go:54-84 | Giving up on a command changes nothing, and its late effect is one atomic operation at the moment it takes place |
| `RedisVerification.CommitAgrees` | common/verification.go:186-203 | An EXEC that goes through is the atomic Claim or Release at that point |
| `RedisVerification.RefusalAgrees` | common/verification.go:186-203 | A call that refuses after its read refuses what the atomic store refuses |
| `RedisVerification.Simulates` | common/verification.go:54-84 | Every step of any instance is one atomic operation with the same answer, or none at all |
| `RedisVerification.GivingUpTakesThreeWrites` | common/verification.go:54-71 | A call gives up only after the key changed three times since it began |
| `RedisVerification.GivingUpTakesThreeChanges` | common/verification.go:54-71 | In every run, between the beginning of a call and the point where it gives up for lost races, its key changed at least three times |
| `RedisVerification.ThreeLostRaces` | common/verification.go:54-71 | For every key and code there are runs in which a claim, and a release, gives up although the code is usable whenever it is read and still is at the end |
| `RedisVerification.UndisturbedClaimSucceeds` | common/verification.go:186-203 | A claim that nobody disturbs succeeds at its first attempt on every usable code |
| `RedisVerification.RunRefines` | common/verification.go:54-84 | Refinement over every run from every good state |
| `RedisVerification.RedisRefinesAtomicStore` | common/verification.go:54-246 | Over every interleaving of any number of instances, with expiry, errors and late effects, every answer is one the mutex-guarded store allows at that point, with its effect; beyond that a claim or release may give up without effect after lost races, and a call may end in an error with its effect, without it, or before it |
| `PasswordReset.ResetPassword` | controller/misc.go:360-418 | One request: each outcome exactly when it is due; the token is consumed exactly when a password was stored, otherwise the store is as before |
| `PasswordReset.ClaimKeepsSafe` | controller/misc.go:372-377 | Whoever wins a claim is the only holder of a code that never led to a commit |
| `PasswordReset.ReleaseKeepsSafe` | controller/misc.go:383-402 | Giving a claim back, or failing to, keeps every other code spent |
| `PasswordReset.UpdateKeepsSafe` | controller/misc.go:394-402 | A commit is the first for its code and leaves it without a holder |
| `PasswordReset.RegisterKeepsSafe` | controller/misc.go:316-318 | Issuing or rotating a token keeps the state safe |
| `PasswordReset.LateKeepsSafe` | controller/misc.go:383-402 | A claim, release, deletion or registration that takes effect after its caller gave up keeps the state safe, as long as the code is untaken |
| `PasswordReset.RedisMoveStaysLinked` | controller/misc.go:383-402 | In every step, a late release that would still go through and a late registration are those of untaken codes |
| `PasswordReset.EventKeepsSafe` | controller/misc.go:360-418 | Every event, including failures and crashes, keeps the state safe |
| `PasswordReset.HistoryIsSafe` | controller/misc.go:360-418 | Safety over every history of requests on the Redis store |
| `PasswordReset.OneHolderOneCommit` | controller/misc.go:360-418 | In every run, with rotation, failures, crashes and late effects, a code has at most one holder at a time and leads to at most one committed password change |
| `PasswordReset.CommitIffMailed` | controller/misc.go:372-402 | In every history a code has led to its commit if and only if some request claimed it, then sent the mail with the new password, then stored that password, with nothing else happening to the request in between |
| `PasswordReset.FailedMailNeverCommits` | controller/misc.go:384-391 | A request whose mail failed commits nothing with that claim |
| `PasswordReset.EndsAsItWent` | controller/misc.go:383-402 | In every history a code is given back only after its mail or its update failed, and deleted only after a password was committed with it |
| `PasswordReset.WorkerHasClaimed` | controller/misc.go:372-377 | Every request that works on a code has claimed it in its history |
| `PasswordReset.DeleteTakesAnotherIff` | controller/misc.go:394-399 | In every history, the deletion of a finished reset removes another token, usable or held, exactly when that token was stored after the claim of the reset and still is |
| `PasswordReset.TakenIsGone` | common/verification.go:209-222 | A token that was taken is not brought back by the release of its holder |
| `PasswordReset.OlderResetDeletesNewerToken` | controller/misc.go:394-399 | For every key and two codes there is a run in which a reset with the older code deletes the unused newer one |
| `ChannelTestSummary.HealthCheck` | controller/channel-test.go:926-970 | When each counter is raised, in terms of the outcome; tested = succeeded + failed and disabled + enabled ≤ tested |
| `WorkerPool.NormalizeConcurrency` | setting/operation_setting/monitor_setting.go:65-73 | Concurrency from 1 to 32 is kept, less becomes 1 and more 32 |
| `WorkerPool.InvStep` | controller/channel-test.go:993-1062 | Every step keeps: channels held by distinct workers, one result per channel, summary = sum of deliveries, gap-free progress, conservation, orderly shutdown |
| `WorkerPool.MoveConserves` | controller/channel-test.go:999-1031 | What is collected, owed and still to come is the same before and after a step |
| `WorkerPool.StepDecreases` | controller/channel-test.go:993-1062 | Every step makes a measure smaller, so every run ends |
| `WorkerPool.NotStuck` | controller/channel-test.go:993-1062 | In every reachable state that has not ended, cancelled or not, some step other than a cancellation is possible |
| `WorkerPool.RunIsGood` | controller/channel-test.go:993-1062 | Every run keeps the invariant and is no longer than its first measure |
| `WorkerPool.ReachableIsSafe` | controller/channel-test.go:975-1063 | In every reachable state: at most one result per channel, at most workerCount tests in flight, the summary is the sum of what was delivered and consistent, progress rises by one up to at most the total |
| `WorkerPool.UncancelledRunIsComplete` | controller/channel-test.go:1014-1062 | Without cancellation every run ends with all channels processed and, per counter, the sum of the tests of exactly the channels that are there and not manually disabled, whatever the interleaving |
| `WorkerPool.TestedAtMostOnce` | controller/channel-test.go:1010-1018 | In every run, cancelled or not, a channel is tested at most once, and only one that is there and not manually disabled |
| `WorkerPool.EachTestedOnce` | controller/channel-test.go:1010-1018 | In every run that ends uncancelled, exactly those channels are tested, each once |
| `WorkerPool.NoTestAfterCancel` | controller/channel-test.go:1010-1012 | No test starts once the pool is cancelled |
| `WorkerPool.ReportsFollow` | controller/channel-test.go:1057-1060 | Progress is reported after every result, and no more once the pool is cancelled |
| `WorkerPool.AlwaysCanFinish` | controller/channel-test.go:993-1062 | From every reachable state the pool can run to its end |
| `RateLimiter.QueueDecides` | common/rate-limit.go:45-69 | The length and the oldest element of the trimmed queue decide what counting the whole history decides |
| `RateLimiter.EvictionIsSound` | common/rate-limit.go:28-42 | Forgetting a queue whose newest element has expired loses nothing for durations up to the expiry plus one |
| `RateLimiter.LongerDurationIsUnsound` | common/rate-limit.go:28-69 | For every limit and every longer duration: after a full window and a sweep the limiter admits a request that the admissions so far forbid |
| `RateLimiter.AdmissionKeepsSpacing` | common/rate-limit.go:45-69 | Admissions a limit apart in number stay a duration apart in time |
| `RateLimiter.WindowIsBounded` | common/rate-limit.go:45-69 | Every window of a duration holds at most the limit of admissions |
| `RateLimiter.Limiter.Ask` | common/rate-limit.go:45-69 | The answer and the new queue in terms of the old queue, for any limit and duration |
| `RateLimiter.Limiter.Request` | common/rate-limit.go:45-69 | The answer is that of the specification on the full history, after any sweeps |
| `RateLimiter.Limiter.Clear` | common/rate-limit.go:28-42 | A sweep drops exactly the stale keys |
| `RateLimiter.Limiter.Sweep` | common/rate-limit.go:28-42 | A sweep changes no later answer |
| `RateLimiter.Limiter.NoWindowOverflows` | common/constants.go:219-246 | In every reachable state no window of a key holds more admissions than its limit |
| `AdmissionLimiter.RollbackRestores` | controller/plugin_protocol_limiter.go:97-129 | Counting up and back down restores the map itself, without a zero entry |
| `AdmissionLimiter.AddScoped` | controller/plugin_protocol_limiter.go:80-131 | An admitted lease keeps a scope's counts exact, tidy and within the limit |
| `AdmissionLimiter.RemoveScoped` | controller/plugin_protocol_limiter.go:134-156 | So does a released one |
| `AdmissionLimiter.Limiter.Reserve` | controller/plugin_protocol_limiter.go:80-132 | The first full scope refuses, by name and limit, and the counters are untouched; otherwise all four are raised |
| `AdmissionLimiter.Limiter.Acquire` | controller/plugin_protocol_limiter.go:65-157 | Admitted exactly when the identity is complete and the live leases of each of the four scopes are below its limit; otherwise the first full scope is named with its limit and the whole state is unchanged; counters always equal the live leases |
| `AdmissionLimiter.Limiter.Release` | controller/plugin_protocol_limiter.go:134-156 | However often it is called, the closure gives its four places back once |
| `BodyStorage.ReadersAreIndependent` | common/body_storage.go:98-108 | Replay readers do not depend on the cursor or on each other and outlive Close |
| `BodyStorage.ReadsAreContiguous` | common/body_storage.go:62-69 | However it is read, the pieces are the next bytes of the payload without gap or repetition |
| `BodyStorage.SeekAnswers` | common/body_storage.go:71-78 | A seek goes to the offset from the start, the cursor or the end; before the start it fails and changes nothing |
| `BodyStorage.SeekThenRead` | common/body_storage.go:205-212 | The reads after a seek return the bytes from its target on |
| `BodyStorage.Rewind` | common/gin.go:40-43 | After any reads, rewinding and reading again returns the payload |
| `BodyStorage.SeekFromCursor` | common/body_storage.go:71-78 | A seek from the cursor counts the bytes read since the last position |
| `BodyStorage.WholePayload` | common/body_storage.go:89-116 | Bytes returns the payload, Size its length, a new reader starts at the beginning, and nothing else changes |
| `BodyStorage.ClosedForGood` | common/body_storage.go:214-275 | After Close, in every run, reads, seeks, Bytes and new readers are refused |
| `BodyStorage.MemoryStorage.Do` | common/body_storage.go:44-116 | Every call on memory storage is one step of the interface |
| `BodyStorage.DiskStorage.ReadEverything` | common/body_storage.go:225-257 | Bytes returns the whole payload and leaves the cursor where it was |
| `BodyStorage.DiskStorage.Do` | common/body_storage.go:196-283 | Every call on disk storage is the same step of the interface, also after its file was removed |
| `BodyStorage.RunBoth` | common/body_storage.go:44-283 | Over every sequence of calls, disk storage answers exactly like memory storage |
| `BodyStorage.CreateFromBytes` | common/body_storage.go:286-304 | Creation never loses the body; it is on disk exactly when the cache is enabled, the threshold reached, the cap respected and the disk works |
| `BodyStorage.BrokenDiskLosesStreams` | common/body_storage.go:307-348 | A stream meant for a disk that does not work is refused, any other kept in memory |
| `BodyStorage.StreamLimitRespectedIff` | common/body_storage.go:159-194 | Creating from a stream succeeds exactly when it is within the limit, holding all of it, if and only if the limit is not the largest int64 or the stream is empty |
| `BodyStorage.LargestLimitLosesTheBody` | common/body_storage.go:307-348 | With the largest limit every body is accepted as an empty one |
| `BodyStorage.RequestLimitIsRespected` | common/gin.go:60-69 | The limit of a request is never that one, so every request body obeys its limit |
| `BodyStorage.AnnouncedLengthDecidesTheCap` | common/body_storage.go:307-327 | A stream within its limit goes to disk whole; for every usage within the cap it stays there if and only if the stream is empty, or the announced length cannot overflow the int64 sum and the stream is no longer than announced or the announcement never passes |
| `BodyStorage.DecompressedBodyExceedsCap` | common/body_storage.go:307-327 | A single body above the cap is accepted |
| `BodyStorage.LargestLengthPassesTheCheck` | common/disk_cache_config.go:170-177 | With the largest announced length the check passes and the body ends above the cap |
| `UsageAccounting.InvStep` | common/disk_cache_config.go:109-134 | Every separate atomic add keeps the counters equal to the storages that are counted and not yet discounted |
| `UsageAccounting.CountersAreExact` | common/disk_cache_config.go:109-134 | Under every interleaving no clamp fires, and at rest the counters are the number and bytes of the open storages, however often each was closed |
| `UsageAccounting.CapHoldsOneByOne` | common/disk_cache_config.go:170-177 | If creations do not overlap and each is sound for the cap, usage never exceeds it |
| `UsageAccounting.LargerThanAnnounced` | common/body_storage.go:307-327 | For every cap and every creation larger than announced there is a run without overlap that ends above the cap |
| `UsageAccounting.OverflowPassesTheCheck` | common/disk_cache_config.go:170-177 | For every cap and every announced length that overflows the sum there is a run without overlap that ends above the cap |
| `UsageAccounting.CapHoldsIff` | common/disk_cache_config.go:170-177 | Over all runs without overlap, a kind of creation among plain ones respects the cap if and only if it writes nothing, or cannot overflow the int64 sum and writes no more than was checked or never passes |
| `UsageAccounting.OverlapExceedsCap` | common/disk_cache_config.go:170-177 | Two overlapping honest creations reach twice the cap, for every cap |
| `Strings.PiecesJoin` | model/channel.go:294-299 | A stored list is read back as written exactly when neither end is empty |
| `Strings.TrimRemoves` | controller/channel_upstream_update.go:101-106 | Trimming removes what is to be removed at both ends and nothing else |
| `ModelNames.NormalizeClean` | controller/channel_upstream_update.go:101-106 | Normalised names are trimmed, not empty and all different |
| `ModelNames.NormalizeKeepsClean` | controller/channel_upstream_update.go:101-106 | Normalising is idempotent |
| `ModelNames.NormalizeFirstOrder` | controller/channel_upstream_update.go:101-106 | Normalised names come in the order in which they first occur |
| `ModelNames.AppendUnseen` | controller/channel_upstream_update.go:108-122 | The merging loop appends, in order, exactly the names that were not there |
| `ModelNames.MergeClean` | controller/channel_upstream_update.go:108-122 | Merged names are the union, clean, base first |
| `ModelNames.SubtractClean` | controller/channel_upstream_update.go:124-133 | Subtracted names are the difference, clean |
| `ModelNames.IntersectClean` | controller/channel_upstream_update.go:135-144 | Intersected names are the common ones, clean |
| `ModelNames.ApplySelectedExact` | controller/channel_upstream_update.go:146-151 | The new list is duplicate-free with set (origin ∪ add) minus (remove minus add), origin order first, then request order |
| `UpstreamModels.PendingAddIs` | controller/channel_upstream_update.go:180-239 | What is to be added: offered upstream, not served directly or by redirect, not ignored |
| `UpstreamModels.PendingRemoveIs` | controller/channel_upstream_update.go:180-239 | What is to be removed: local, no redirect source, not offered upstream |
| `UpstreamModels.PendingAddMeans` | controller/channel_upstream_update.go:200-226 | To add is exactly what is offered, no local name, no target of a redirect, and neither spelled by an ignore rule nor matched by a regex rule |
| `UpstreamModels.PendingRemoveMeans` | controller/channel_upstream_update.go:228-237 | To remove is exactly what is local, no source of a redirect and not offered |
| `UpstreamModels.RedirectsAreProtected` | controller/channel_upstream_update.go:197-237 | The target of a redirect is never added, its source never removed |
| `UpstreamModels.PendingDisjoint` | controller/channel_upstream_update.go:180-239 | Pending additions and removals never overlap |
| `UpstreamModels.RemovalsSettle` | controller/channel_upstream_update.go:180-239 | After applying everything nothing is left to remove |
| `UpstreamModels.CoverageAfterApply` | controller/channel_upstream_update.go:180-239 | After applying everything, the names not served are those that were ignored |
| `UpstreamModels.ApplyAllIsFixpointIff` | controller/channel_upstream_update.go:180-239 | Detecting again finds nothing, if and only if every ignored name is ignored by a rule that is not itself being added |
| `UpstreamModels.ApplyAllIsFixpoint` | controller/channel_upstream_update.go:180-239 | In particular when no upstream name starts with `regex:` |
| `UpstreamModels.RegexLookAlikeBreaksFixpoint` | controller/channel_upstream_update.go:212-226 | A regex rule offered as a model makes the names only it ignores turn up |
| `ChannelModels.RegexLookAlikeInstance` | controller/channel_upstream_update.go:212-226 | Such inputs exist for every regex rule that matches a name and not itself |
| `ChannelModels.MergePending` | controller/channel_upstream_update.go:537-549 | Auto-sync adds exactly as many models as were pending |
| `ChannelModels.Channel.Check` | controller/channel_upstream_update.go:513-560 | What a check records: nothing when too soon, the time alone when the fetch fails, otherwise the pending lists, or the models themselves under auto-sync |
| `ChannelModels.Channel.Apply` | controller/channel_upstream_update.go:958-1006 | Only pending names are accepted; the new model list, ignore rules and remaining pending lists for any request |
| `ChannelModels.PartialAcceptanceIsExact` | controller/channel_upstream_update.go:958-1006 | The rest stays pending: neither accepted nor ignored; an accepted model never stays ignored |
| `ChannelModels.RewrittenReadsBackIff` | controller/channel_upstream_update.go:979-984 | The rewritten column reads back as the new list exactly when no added name holds a comma |
| `ChannelModels.CommaNameComesBack` | controller/channel_upstream_update.go:979-984 | A pending name with a comma is pending again after it was accepted |
| `ChannelModels.CommaInstance` | controller/channel_upstream_update.go:979-984 | Such inputs exist for every name with a comma |
| `ChannelModels.AcceptingAllSettlesIff` | controller/channel_upstream_update.go:958-1006 | Through the stored column, accepting everything detected leaves nothing to detect if and only if no accepted name holds a comma and the ignore rules survive |
| `ChannelModels.Reconcile` | controller/channel_upstream_update.go:513-560 | Check, accept everything, check again: nothing is pending, if and only if no accepted name holds a comma and the ignore rules survive |
| `MultiKey.CarryOverShows` | controller/channel.go:1923-1948 | A surviving key shows the same row at its new position |
| `MultiKey.RowsTell` | controller/channel.go:1642-1689 | Two rows are the same exactly when key and status are and, for a disabled key, time and reason |
| `MultiKey.SurvivorOfOne` | controller/channel.go:1997-2000 | Only an automatically disabled key goes |
| `MultiKey.SurvivorsOfParts` | controller/channel.go:1986-2016 | The survivors of a list are those of its parts, in order |
| `MultiKey.WithoutKey` | controller/channel.go:1916-1948 | The loop of delete_key: order kept, positions in range, every survivor's row unchanged |
| `MultiKey.WithoutAutoDisabled` | controller/channel.go:1979-2016 | The loop of delete_disabled_keys: exactly the automatically disabled keys go, every survivor's row unchanged |
| `MultiKey.StoredKeys` | model/channel.go:180-202 | Keys are read back as written exactly when neither outer one is empty |
| `MultiKey.Channel.Save` | model/channel.go:556-603 | The size is counted again, entries beyond it are dropped, an empty column is not written |
| `MultiKey.Channel.DisableKey` | controller/channel.go:1742-1783 | Out of range is refused without effect; otherwise one status changes |
| `MultiKey.Channel.EnableKey` | controller/channel.go:1785-1825 | Enabling forgets status, time and reason of that key only |
| `MultiKey.Channel.EnableAll` | controller/channel.go:1827-1849 | Everything is forgotten, the keys stay |
| `MultiKey.Channel.DisableAll` | controller/channel.go:1851-1896 | Every enabled key becomes manually disabled, the others keep their status, times and reasons stay; refused exactly when none is enabled |
| `MultiKey.Channel.DeleteKey` | controller/channel.go:1898-1976 | The last key stays; otherwise the survivors keep their rows and order as long as no outer one is empty, and times and reasons move with their keys; the positions are in range afterwards exactly when what is stored before fits the keys that will be read back |
| `MultiKey.Channel.DeleteDisabledKeys` | controller/channel.go:1978-2045 | The survivors keep their rows and order; the positions are in range afterwards exactly when what is stored before fits the keys that will be read back; if there is no survivor, nothing is deleted and all keys are enabled again |
| `MultiKey.DedupKeys` | controller/channel.go:1142-1161 | The appended keys are the trimmed inputs that are neither empty, present nor repeated, in order |
| `MultiKey.NewKeysAreGood` | controller/channel.go:1142-1161 | Appended keys are new, all different, not empty and free of line breaks |
| `MultiKey.NewKeysAreComplete` | controller/channel.go:1142-1161 | Every trimmed input that is not empty and not known is appended, once, in the order of first occurrence |
| `MultiKey.Channel.AppendKeys` | controller/channel.go:1091-1165 | Existing keys keep their rows, new ones show up enabled at the end; a column of line breaks only gives way to the new keys, whose first takes over its row |
| `MultiKey.Perform` | controller/channel.go:1742-2045 | Every action on every valid channel keeps size = number of keys and at least one key; the positions stay in range exactly when what is moved fits, which is so across every sequence of actions on a channel without empty keys, or without recorded times and reasons |
| `MultiKey.StrandedEntry` | controller/channel.go:1898-1976 | With an empty key and a recorded time, a deletion can leave a time beyond the list |
| `BasePath.IsValidBasePathSegment` | common/base_path.go:101-122 | True exactly for a segment-nz of section 3.3 of RFC 3986 |
| `BasePath.OnlyPlainChars` | common/base_path.go:94-122 | A valid segment holds letters, digits, the marks of pchar and percent signs, and nothing else |
| `BasePath.PlainCharIsSegment` | common/base_path.go:94-122 | Each of those but the percent sign is accepted by itself |
| `BasePath.NormalizeBasePath` | common/base_path.go:75-92 | The result or refusal, naming the first bad segment |
| `BasePath.AcceptedIsPrefix` | common/base_path.go:75-92 | Accepted values are empty or slash-led segments of pchar |
| `BasePath.PrefixIsAccepted` | common/base_path.go:75-92 | Every value of that shape is accepted as it stands |
| `BasePath.NormalizeIsIdempotent` | common/base_path.go:75-92 | Normalising is idempotent |
| `BasePath.SlashesDoNotMatter` | common/base_path.go:82-92 | With or without a slash in front and behind, the same segments give the same prefix |
| `BasePath.UrlIsRefused` | common/base_path.go:79-81 | Refused as an absolute URL exactly for "://" inside or "//" in front |
| `BasePath.PrefixDecodes` | common/base_path.go:165-174 | Decoding an accepted prefix never fails |
| `BasePath.DecodeConcat` | common/base_path.go:161-174 | Percent-decoding goes piece by piece behind a complete piece |
| `BasePath.StripVerbatim` | common/base_path.go:155-202 | A target that carries the prefix verbatim loses it in both forms, and the two remainders still agree |
| `BasePath.StripsIff` | common/base_path.go:175-181 | A request is stripped exactly when its path is the decoded prefix or lies below it, and loses nothing but the prefix |
| `BasePath.NotStripped` | common/base_path.go:158-179 | Any other request is handed on as it is |
| `BasePath.StrippingKeepsCoherence` | common/base_path.go:155-202 | For every accepted prefix and every request whose escaped path decodes to its path, the stripped escaped path is empty or decodes to the stripped path |
| `BasePath.DecodeEscape` | common/base_path.go:192-194 | Decoding undoes escaping, for every byte string |
| `BasePath.StrippedRequestLine` | common/base_path.go:192-197 | The request line of a stripped request decodes to the stripped path, which starts with a slash |
| `BasePath.StripUndoesWithBasePath` | common/base_path.go:137-202 | For every root-absolute path the handler sees the same path, query and request line as without a prefix, escapes included |
| `BasePath.PrefixLocationIsIdempotent` | common/base_path.go:234-250 | Prefixing a redirect twice is prefixing it once |
| `BasePath.ForeignLocationIsKept` | common/base_path.go:234-250 | A location on another origin or relative to the page is left alone; one at this server without the prefix gets it |
| `BasePath.PrefixedLocationIsKeptIff` | common/base_path.go:234-250 | A WithBasePath result is left alone exactly when its path is empty or root-absolute |
| `BasePath.RedirectComesBackIff` | common/base_path.go:284-293 | A redirect into the server comes back as the same path exactly when that path does not read as one below the prefix |
| `ConfigImport.PrepareIs` | controller/channel_config_import.go:237-265 | What passes the preflight says what its file entry says, with the resolved models, and was validated before and after |
| `ConfigImport.PassesIff` | controller/channel_config_import.go:237-265 | An entry passes exactly when it can be built, both validations accept it, its models can be resolved and the lookup works |
| `ConfigImport.ImportedModelsReadBackIff` | controller/channel_config_import.go:250-253 | The stored models read back as the resolved list exactly when no name holds a comma and neither outer one is empty |
| `ConfigImport.RefusedIff` | controller/channel_config_import.go:314-398 | Refused for its type, its keys or its documents exactly when those cannot be used |
| `ConfigImport.StepFinds` | controller/channel_config_import.go:423-435 | A write is found under its name |
| `ConfigImport.StepSpares` | controller/channel_config_import.go:423-435 | A write changes nothing that is found under another name |
| `ConfigImport.AppliedRow` | controller/channel_config_import.go:268-309 | After an import every item's row is its earlier row, or a new one, overwritten once, whatever the other items are |
| `ConfigImport.OtherRowsStay` | controller/channel_config_import.go:423-435 | No other row changes, moves or goes away; of namesakes only the one with the lowest id is touched |
| `ConfigImport.ImportedFields` | controller/channel_config_import.go:440-484 | Every field of an updated channel: the id, the runtime fields and omitted optional fields keep their value, given ones are taken, and owned fields become what the file gives or their default |
| `ConfigImport.CreatedFields` | controller/channel_config_import.go:288-302 | Every field of a created channel: what the file gives, and otherwise priority 0, weight 1, status 1 (also for 0) and auto_ban 1 |
| `ConfigImport.OmittedIsKeptIff` | controller/channel_config_import.go:314-398 | Exactly when group, base URL, overrides, key states, key and type keep their stored value |
| `ConfigImport.OmittedGroupIsReset` | controller/channel_config_import.go:326-331 | Every stored group but the default is lost when the file omits it |
| `ConfigImport.BuildSaysFile` | controller/channel_config_import.go:314-398 | A prepared channel says, field by field, what its file entry says and the defaults where it says nothing |
| `ConfigImport.OverlayCreatedIff` | controller/channel_config_import.go:288-302 | A created channel is what importing it again makes of it, exactly when the file does not ask for status 0 |
| `ConfigImport.ImportTwiceIff` | controller/channel_config_import.go:229-312 | From any database, importing the same file again changes nothing, if and only if every channel it sets to status 0 existed before |
| `ConfigImport.ImportConverges` | controller/channel_config_import.go:229-312 | After a second import nothing changes any more |
| `ConfigImport.Importer.Preflight` | controller/channel_config_import.go:236-272 | The preflight passes exactly when every entry does, and only reads |
| `ConfigImport.Importer.WriteOne` | controller/channel_config_import.go:275-308 | The loaded copy, current or not, is overwritten and saved by id, or a channel is created; the report tells what happened |
| `ConfigImport.WriteLoadedIsApplyAll` | controller/channel_config_import.go:229-312 | If nobody else writes, the two-phase import equals looking each channel up right before its write |
| `ConfigImport.ConcurrentChangeSurvivesIff` | model/channel.go:350-352 | A change of a runtime field between lookup and write survives if and only if no entry of the file updates the channel |
| `ConfigImport.Importer.Apply` | controller/channel_config_import.go:229-312 | A failed preflight writes nothing; otherwise the copies of the preflight are written over whatever others have stored by then, and failed writes stop none of the others |
| `ConfigImport.Watcher.SyncFile` | controller/channel_config_import.go:161-202 | A content is remembered only after a full success; its failure is logged once |
| `ConfigImport.KeepsIff` | controller/channel_config_import.go:440-484 | A row that says what an entry says still does after other writes exactly when they set no field differently |
| `ConfigImport.RunRemembers` | controller/channel_config_import.go:161-202 | Over every run of ticks, each row of the remembered content is what that content left with the net effect of the later writes on it |
| `ConfigImport.RememberedIsSettledIff` | controller/channel_config_import.go:161-202 | Over every run of ticks from every table, importing the remembered content again would change nothing if and only if the net effect of what was written since, failed contents and status-0 creations included, agrees with it |
| `ConfigImport.AllOrNothingStaysSettled` | controller/channel_config_import.go:113-128 | In particular when every content is written whole or not at all and none asks for status 0 |
| `ConfigImport.PartialFailureDrifts` | controller/channel_config_import.go:161-202 | Content A settled, B failing after writing an entry that differs from that of A, A again: A counts as applied and the table is not what A says |
| `ConfigImport.DriftInstance` | controller/channel_config_import.go:161-202 | Such a drift exists for every name and every two keys |
| `OggScanner.OpusDuration` | common/audio.go:196-254 | The loop ends on every byte string and computes the scan |
| `OggScanner.TakeRound` | common/audio.go:207-248 | Every round moves on by at least one byte |
| `OggScanner.ScanPage` | common/audio.go:219-248 | A well-formed page by section 6 of RFC 3533 is taken in one round with its signed granule position |
| `OggScanner.NoStraddle` | common/audio.go:219-225 | The capture pattern cannot begin in junk and end in a page |
| `OggScanner.ScanJunk` | common/audio.go:219-225 | Junk without the pattern is walked over without a find |
| `OggScanner.ScanStream` | common/audio.go:196-254 | Over pages with junk before, between and behind them, the scan finds their largest granule position |
| `OggScanner.MaxGranuleIs` | common/audio.go:227-231 | It is the maximum of zero and the granule positions |
| `OggScanner.StreamDuration` | common/audio.go:250-253 | The duration is that maximum over 48000 |
| `QuotaMath.RoundIsNearest` | common/quota_math.go:140-142 | Rounding gives the nearest integer, and of two the one farther from zero |
| `QuotaMath.NearestIsNear` | common/quota_math.go:170-175 | The float64 of an integer is at most half a unit away |
| `QuotaMath.NearestIsExact` | common/quota_math.go:170-175 | Below 2^53 float64 holds integers exactly |
| `QuotaMath.NearestStaysLarge` | common/quota_math.go:170-175 | From 2^53 on, conversion never falls back below it |
| `QuotaMath.Saturate` | common/quota_math.go:86-100 | The result is within the bounds, and a clamp is reported exactly for values outside them |
| `QuotaMath.WalletConversionIsExact` | common/quota_math.go:170-175 | For every decimal: its half-away rounding when that is at most 2^53 - 1 in magnitude, otherwise an error with the right reason, although it passes through float64 |
| `QuotaMath.QuotaConversionIsExact` | common/quota_math.go:159-168 | The same for int32 and single-request quotas |
| `QuotaMath.QuotaRoundIsMonotone` | common/quota_math.go:133-142 | Saturating rounding is monotone |
| `QuotaMath.SettlementIsMonotone` | controller/channel-test.go:554-563 | More prompt or completion tokens never cost less, for all non-negative ratios, infinite and NaN included, and every monotone float rounding |
| `QuotaMath.SettlementIsBounded` | controller/channel-test.go:554-563 | Zero for a zero model ratio; otherwise between 1 and what int32 holds, for every ratio |
| `QuotaMath.RatioOneCostsTokens` | controller/channel-test.go:554-563 | At ratios 1 and 1 a test costs its prompt and completion tokens, and at least one unit |
| `QuotaMath.CompletionRatioScales` | controller/channel-test.go:556-557 | The completion ratio weights the completion tokens |
| `QuotaMath.CompletionRatioIsForCompletion` | controller/channel-test.go:556-557 | Without completion tokens the completion ratio does not matter |
| `QuotaMath.ModelRatioScales` | controller/channel-test.go:558-561 | The model ratio weights the prompt tokens |

## Left out

- HTTP handling, JSON and YAML parsing, translations, audit logs and mail contents: they carry no invariant of their own.
- A commit of the password update whose outcome the database leaves open.
- I/O errors of body storages, closing a replay reader, zero-length reads, `whence` values outside 0 to 2 and int64 overflow of a seek.
- `CleanupOldDiskCacheFiles`, `ResetDiskCacheUsage` and `SyncDiskCacheStats`: they set the counters on purpose.
- Keys stored as a JSON array and Vertex keys: a JSON library decides what their elements are.
- A channel that is deleted between the lookup and the write of an import, which the write creates again.
- The abilities tables that channel writes rebuild: only whether rebuilding them failed is an input.
- Database failures while saving the results of an upstream check or apply.
- Retries of the setup hook, which applies the file once without asking whether it changed.
- Rounding of the division by 48000, and the pre-skip of an Opus stream, which the source does not subtract either.
- Tiered and per-request prices in `settleTestQuota`; the other audio formats; IEEE detail beyond NaN, infinities, monotone rounding and the nearest float64 of an integer.
- `selectChannelsForAutomaticTest`, pagination and the remaining controllers: easy members without a property across functions.
