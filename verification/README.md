# Verified model of the telemetry backend's resilience and ingestion core

This project models the parts of the playback backend in which state, time and failure meet, and
proves what they guarantee over every input and every run:

- **Cors, Glob, GlobLaws** – the allowed-origins decision and its backtracking glob matcher; what each kind of
  pattern matches, in characters.
- **CircuitBreaker, BreakerGuarantees, BreakerAccounts, BreakerRecovery** – a timed state machine with generations,
  under any interleaving of calls; what its runs keep, what makes it change and what its counters and times say of
  the past, and when its half-open state recovers.
- **TokenBucket, RateLimiter, RateWindows, GlobalLimiter** – per-tenant token buckets behind a cache with idle
  eviction; what they grant in any window of time; the system-wide bucket in front of a breaker.
- **KinesisBuffer, KinesisCalls, KinesisOutcomes** – per-tenant buffering, flushing, dead-lettering and the health
  counters; sequences of calls as runs; what each flush and call comes to.
- **BatchProcessor, BatchLifecycle, LifecycleLaws** – one stream's event loop with retries; starting and stopping;
  what runs, is open and is queued after any calls.
- **DeadLetterQueue, DeadLetterFates** – the retry protocol, the keep-last-N fallback buffer, the backoff; what
  becomes of a message and of an event.
- **SpanValidator, SpanErrors, FastHash** – the pooled, unrolled trace validator, which error it reports, and its
  64-bit hash.
- **ConfigReload, Delivery, Debounce, Fingerprint** – layer merge, validated swap, broadcasts, debounced
  reload signals, change detection.
- **SecretPlaceholders, SecretTermination, TraceParent, PartitionKey, SubstringCount** – expansion, parsing,
  printing, counting.
- **Text, Sums, Options** – string searching, sums over sequences and missing values, shared by the rest.

## How to read it

Code that updates state in place is a class or a method with loops. Each such method is proved
against a function of the old state, and the lemmas are about that function or about runs of it:
a run is a sequence of states `ws` and of steps, each state following from the one before, and a
theorem about a reachable state is a theorem about every run. Where a property the documentation
suggests is false of the code, the exact condition under which it holds is proved instead:

- A half-open breaker can get stuck rejecting every call for good, exactly when some possible counts trip
  the rule and all probes can fail without tripping it (`StuckIff`, for every rule). The constructor's
  default rule can get stuck exactly for up to five probes; the application's settings cannot. The
  system-wide limiter's breaker, behind its token bucket, can get stuck exactly for bursts from 1 to 19 that
  reach ten requests within 30 seconds and, without refill, only for a burst of 19 (`PromptSticksIff`); if
  requests lag between poll, token and breaker the 30 seconds do not matter (`LaggingSticksIff`); with an
  unlimited rate it can for every burst below 20 (`UnlimitedSticksIff`). A failed probe
  reopens the breaker only if the trip rule says so, unlike the prose in
  internal/config/circuitbreaker/doc.go (line 36); the code is followed.
- Evicting an idle tenant's limiter is unobservable exactly when every bucket refills within the idle
  time (`EvictionUnobservableIff`) and, where configurations may change, no change raises a burst
  (`ReconfiguredUnobservableIff`).
- A failed flush can lose events that are neither published nor dead-lettered exactly when a tenant may
  buffer more than one batch (`TailPossibleIff`); the default sizes allow it.
- A batch publishes all of its events exactly when none is a legacy event of an unknown type
  (`BatchSendsAllIff`).
- An allowed-origins entry is read as a glob exactly when it has a metacharacter or no backslash
  (`EntryIsGlobIff`).
- The batch processor's Stop is called idempotent, but panics exactly when the processor counts as
  running although an earlier Stop closed the shutdown channel (`StopPanicsIff`). A processor started after
  a shutdown accepts events that its streams may never send (`RestartStrandsEvents`).
- An event sent to the dead letter queue is ever handed to the processor exactly when its body decodes
  (`HandedOverIff`). The failed event's event field has an interface type with methods
  (internal/resilience/dead_letter_queue.go, line 35; internal/streaming/events.go, lines 56-63) and no
  decoder of its own, so no body the code writes decodes: each is deleted at its first receipt, and nothing
  is retried (`NothingIsRetried`). Only events in the in-memory fallback buffer are.
- A dead-letter message's measure falls exactly when its delete goes through (`FallsIff`).
- A drain of the fallback buffer that is cancelled puts back only the event at hand, so it loses none exactly
  when no event but the last meets the cancellation (`ProcessLocalBuffer`).
- For texts and secret values that are delimited segment lists, in which `$` and braces only delimit:
  resolution of a text ends exactly when the secrets it reaches before a failure can be ranked so that each
  ranks above all that its value names before the value's own resolution fails (`TextEndsIff`), and of all
  of them when all secrets can (`ResolutionEndsIff`); values on a cycle never end (`CycleNeverEnds`), unless
  a failure cuts it (`FailureCutsCycle`). With secret values without `$` every text ends, delimited or not
  (`Terminates`).
- Different span identifiers of eight bytes are never taken for duplicates (`EightByteHashesInjective`), nor
  are those of one or two bytes (`TwoByteHashesInjective`); but every identifier shorter than eight bytes is
  taken for exactly one of eight bytes (`OnlyPartner`).
- A subscriber sees the chain of snapshots in order exactly when no broadcast overtakes an older one
  (`SeenInOrderIff`).
- A traceless event shares a partition with a trace that is named like its service (`SharePartitionIff`).
- The trace header emitted for a legacy trace identifier parses exactly when the identifier has no
  upper-case digit and the new span identifier is not zero (`EmittedParsesIff`).
- A partition key round-trips exactly when neither service nor trace contains a colon (`RoundTripIff`).

Clocks, random bytes, hashes, the answers of remote services and the choice a `select` makes are
parameters or step arguments, so the theorems hold for all of them. A `char` stands for one byte of a
Go string. Counters are unbounded naturals and floating-point numbers are reals.

`dafny verify dfyconfig.toml` checks the whole project.

## Model

| member | source | states |
|---|---|---|
| Glob.ScanClass | api/rest/cors.go:188-207 | the class loop finds the closing bracket the grammar finds, or none, and matches exactly the characters that some single or range of the class covers |
| Glob.MatchClass | api/rest/cors.go:175-215 | a class consumes one character it accepts; unclosed classes and used-up texts match nothing |
| Glob.MatchStar | api/rest/cors.go:151-167 | a run of stars matches when some remaining suffix of the text matches the rest of the pattern |
| Glob.MatchGlobRecursive | api/rest/cors.go:148-239 | terminates, and from any two indices decides whether the rest of the pattern matches the rest of the text |
| Glob.MatchesIsLanguage | api/rest/cors.go:142-146 | the token-by-token unfolding denotes exactly the texts that can be cut into one piece per token |
| Glob.MatchGlob | api/rest/cors.go:144-146 | true exactly when the text is in the pattern's declarative language |
| Glob.PlainMatchesOnlyItself | api/rest/cors.go:227-238 | a pattern without metacharacters and backslashes matches itself and nothing else |
| Glob.EscapedNeverMatchesItself | api/rest/cors.go:216-226 | a pattern whose only special characters are backslashes never matches its own text |
| GlobLaws.EmptyLaw | api/rest/cors.go:237-238 | an empty pattern matches the empty text alone |
| GlobLaws.StarLaw | api/rest/cors.go:151-167 | a star in front of a pattern matches when some suffix of the text matches the pattern |
| GlobLaws.AnyOneLaw | api/rest/cors.go:168-174 | a question mark takes any one character, and the rest of the pattern the rest of the text |
| GlobLaws.PlainLaw | api/rest/cors.go:227-233 | any other character takes itself |
| GlobLaws.EscapeLaw | api/rest/cors.go:216-226 | a backslash takes the character behind it, and nothing at the end of a pattern |
| GlobLaws.ClassLaw | api/rest/cors.go:175-215 | on the pattern's text: a class written from characters and ranges takes one character that one of them names or spans, a negated one any other |
| GlobLaws.UnclosedLaw | api/rest/cors.go:188-212 | a bracket that cannot be written so, because nothing closes it, matches nothing |
| GlobLaws.RangeLaw | api/rest/cors.go:189-196 | `[a-z]` takes both ends and what lies between, `[^a-z]` everything else |
| GlobLaws.SinglesLaw | api/rest/cors.go:197-203 | `[abc]` takes exactly the characters listed |
| GlobLaws.QuestionLaw | api/rest/cors.go:168-174 | `?` alone matches the texts of length one |
| Cors.CreateCorsMiddleware | api/rest/cors.go:16-54 | no origins is an error; otherwise every entry but the wildcard lands in exactly one of the lookup table and the pattern list, by its metacharacters |
| Cors.Decide | api/rest/cors.go:59-86 | which of the three header outcomes a request gets, from the table and the pattern languages |
| Cors.EntryIsGlobIff | api/rest/cors.go:43-53 | an entry is treated as its glob for every origin exactly when it has a metacharacter or no backslash |
| Cors.EntryIsLiteralIff | api/rest/cors.go:43-53 | on the entry's characters: some origin tells the two readings apart exactly when the entry has a backslash and none of `*`, `?`, `[`; without those three it allows its own text alone |
| Cors.HandleOrigin | api/rest/cors.go:16-86 | for every list: an origin is echoed exactly when it is nonempty and some entry allows it; with faithful entries, exactly when some entry but the wildcard glob-matches it |
| CircuitBreaker.CircuitBreaker.constructor | internal/resilience/circuit_breaker.go:73-116 | the new breaker's fields |
| CircuitBreaker.CircuitBreaker.ToNewGeneration | internal/resilience/circuit_breaker.go:256-273 | next generation, cleared counts, expiry by state |
| CircuitBreaker.CircuitBreaker.SetState | internal/resilience/circuit_breaker.go:225-254 | charges the time to the state left and starts a generation; no change when the state is the same |
| CircuitBreaker.CircuitBreaker.CurrentState | internal/resilience/circuit_breaker.go:211-223 | the timed transition, and nothing else |
| CircuitBreaker.CircuitBreaker.BeforeRequest | internal/resilience/circuit_breaker.go:146-166 | admits in closed and, up to maxRequests, in half-open; the generation handed out and the rejection reason |
| CircuitBreaker.CircuitBreaker.OnSuccess | internal/resilience/circuit_breaker.go:185-196 | counts a success; a half-open one closes the breaker |
| CircuitBreaker.CircuitBreaker.OnFailure | internal/resilience/circuit_breaker.go:198-209 | counts a failure; opens the breaker exactly when the trip rule holds |
| CircuitBreaker.CircuitBreaker.AfterRequest | internal/resilience/circuit_breaker.go:168-183 | results of older generations are dropped |
| CircuitBreaker.CircuitBreaker.Execute | internal/resilience/circuit_breaker.go:119-136 | one call from start to end; a panic counts as a failure |
| CircuitBreaker.CircuitBreaker.ResetMetrics | internal/resilience/circuit_breaker.go:370-379 | clears the metrics only |
| BreakerGuarantees.CountsBalance | internal/resilience/circuit_breaker.go:146-209 | in every run, requests equal successes plus failures plus outstanding calls of the generation, and no call is outstanding while open |
| BreakerGuarantees.StaleResultsIgnored | internal/resilience/circuit_breaker.go:168-176 | in every run, a result from an older generation changes no more than a poll at that time would |
| BreakerGuarantees.HistoryIsLegal | internal/resilience/circuit_breaker.go:146-273 | over every run, at most maxRequests admissions per half-open generation, none within the timeout of a trip, only the four legal transitions, each raising the generation |
| BreakerGuarantees.TimesAddUp | internal/resilience/circuit_breaker.go:230-249 | between resets the per-state times sum to the last change minus the start |
| BreakerAccounts.TripsIff | internal/resilience/circuit_breaker.go:198-209 | in every run the breaker opens exactly when a call of the current generation fails or panics and the rule holds on the counts with that failure |
| BreakerAccounts.ClosesIff | internal/resilience/circuit_breaker.go:193-195 | it closes exactly when a half-open breaker's call of the current generation succeeds |
| BreakerAccounts.ProbesIff | internal/resilience/circuit_breaker.go:211-223 | it becomes half-open exactly at the first step behind its timeout |
| BreakerAccounts.ProbeSuccessCloses | internal/resilience/circuit_breaker.go:185-196 | a successful probe leaves it closed, with no counts, in the next generation, its interval running from now |
| BreakerAccounts.GenerationsIff | internal/resilience/circuit_breaker.go:211-273 | a generation ends exactly with a change of state and with a closed interval that is over |
| BreakerAccounts.RequestsAreAdmissions | internal/resilience/circuit_breaker.go:160-165 | the request count is the number of admissions logged for the generation |
| BreakerAccounts.AdmittedIff | internal/resilience/circuit_breaker.go:146-166 | a call is admitted exactly by a closed breaker and by a half-open one that has admitted fewer than maxRequests in its generation |
| BreakerAccounts.CountersAreResults | internal/resilience/circuit_breaker.go:185-209 | after every run the counters are the results of the generation's calls, and the consecutive ones those since the last result of the other kind |
| BreakerAccounts.ExpiryIs | internal/resilience/circuit_breaker.go:256-273 | the expiry is counted from the moment the generation began: the interval, the timeout or none |
| BreakerAccounts.MetricsAreTallies | internal/resilience/circuit_breaker.go:146-209 | since the last reset the metrics count the calls made, refused, and counted as successes and failures |
| BreakerAccounts.TimesAreElapsed | internal/resilience/circuit_breaker.go:230-249 | each state's time is what the log's changes of state say was spent in it |
| BreakerAccounts.LoggedIs | internal/resilience/circuit_breaker.go:146-254 | the log holds exactly the changes of state and the admissions of the run |
| BreakerAccounts.ChangeHasCause | internal/resilience/circuit_breaker.go:185-254 | every logged change of state was made by a step of the run that the three rules above name |
| BreakerAccounts.TripHasCause | internal/resilience/circuit_breaker.go:198-209 | every logged trip was a failure of a current call on counts that trip the rule |
| BreakerAccounts.ClosingHasCause | internal/resilience/circuit_breaker.go:193-195 | every logged closing was the success of a current probe |
| BreakerRecovery.ProbesRecover | internal/resilience/circuit_breaker.go:146-209 | if the rule holds on maxRequests failures, no reachable half-open state without outstanding calls refuses the next call |
| BreakerRecovery.StuckForever | internal/resilience/circuit_breaker.go:146-223 | a stuck breaker keeps its state through every continuation and admits nothing |
| BreakerRecovery.StuckIsReachable | internal/resilience/circuit_breaker.go:146-223 | a run into the stuck state, for every rule that some possible counts trip and that all probes can slip past |
| BreakerRecovery.StuckHasSlipped | internal/resilience/circuit_breaker.go:146-223 | every stuck breaker has tripped on possible counts, and all its probes failed without tripping |
| BreakerRecovery.StuckIff | internal/resilience/circuit_breaker.go:83-209 | for every rule: stuck is reachable exactly when some possible counts trip it and all probes can fail, in some order of starts and failures, without tripping it |
| BreakerRecovery.DefaultRuleSticksIff | internal/resilience/circuit_breaker.go:83-99 | with the default rule, stuck is reachable exactly for maxRequests up to 5 |
| BreakerRecovery.FailureRateIff | internal/app/resilience.go:38-46 | the rule asks for ten requests and more failures than the threshold's share of them |
| GlobalLimiter.GlobalRateLimiter.constructor | internal/resilience/rate_limiter.go:228-252 | a full bucket, limited or not, and a breaker with half the burst as probes |
| GlobalLimiter.GlobalRateLimiter.Allow | internal/resilience/rate_limiter.go:255-262 | an open breaker refuses before a token is taken; otherwise the bucket decides at its own clock reading, and an unlimited one never refuses |
| GlobalLimiter.GlobalRateLimiter.Execute | internal/resilience/rate_limiter.go:265-271 | a token first, then one call of the breaker; a token may be spent on a call the breaker refuses |
| GlobalLimiter.SystemBreakerTripsIff | internal/resilience/rate_limiter.go:237-245 | the system-wide breaker trips exactly on ten requests of which more than half failed |
| GlobalLimiter.PromptSticksIff | internal/resilience/rate_limiter.go:228-271 | with each request's poll, token and entry at one moment, stuck is reachable exactly for bursts from 1 to 19 with burst + 30 rps >= 10 and, without refill, burst 19 |
| GlobalLimiter.LaggingSticksIff | internal/resilience/rate_limiter.go:228-271 | with any time and any other steps between a request's poll, token and entry, exactly for bursts from 1 to 19 and, without refill, burst 19 |
| GlobalLimiter.UnlimitedSticksIff | internal/resilience/rate_limiter.go:228-271 | with an unlimited rate, exactly for bursts below 20, whether requests lag or not |
| BreakerRecovery.AppNeverStuck | internal/app/resilience.go:33-47 | the application's breaker is never stuck, whatever interval, timeout and threshold |
| RateLimiter.TenantRateLimiter.constructor | internal/resilience/rate_limiter.go:44-61 | empty caches and the half-hour idle time |
| RateLimiter.TenantRateLimiter.SetTenantConfig | internal/resilience/rate_limiter.go:64-80 | stores the override and retunes a live limiter at its tokens of that moment; used times stay |
| RateLimiter.TenantRateLimiter.GetLimiter | internal/resilience/rate_limiter.go:115-145 | marks the tenant used; the limiter found or made carries the tenant's override or the default |
| RateLimiter.TenantRateLimiter.AllowN | internal/resilience/rate_limiter.go:98-101 | the answer and the new contents for any number of tokens, with the same keys in both maps |
| RateLimiter.TenantRateLimiter.Allow | internal/resilience/rate_limiter.go:83-95 | the answer for one request |
| RateLimiter.TenantRateLimiter.Cleanup | internal/resilience/rate_limiter.go:158-170 | one sweep drops exactly the tenants whose last use is longer ago than the idle time, from both maps, and leaves the others as they are |
| RateLimiter.BucketLater | internal/resilience/rate_limiter.go:64-80 | while a bucket is not full it has refilled at least in proportion to the time since its last use |
| RateLimiter.RetunedOk | internal/resilience/rate_limiter.go:71-74 | a change that does not raise the burst keeps it so, and keeps a full bucket full |
| RateLimiter.IdleIsFull | internal/resilience/rate_limiter.go:161-165 | such a bucket is full when it is dropped |
| RateLimiter.SameAnswers | internal/resilience/rate_limiter.go:64-173 | from related caches every run, reconfigurations included, is answered alike with and without eviction |
| RateLimiter.EvictionSeen | internal/resilience/rate_limiter.go:148-173 | a run that tells the two apart whenever some bucket does not refill in time |
| RateLimiter.RaiseSeen | internal/resilience/rate_limiter.go:64-173 | a run that tells the two apart whenever some burst can be raised: a limiter made anew is full at the new burst |
| RateLimiter.ReconfiguredUnobservableIff | internal/resilience/rate_limiter.go:64-173 | with any set of configurations that SetTenantConfig may install, eviction is unobservable in every run exactly when every bucket a tenant may have refills within the idle time and no change raises a burst |
| RateLimiter.EvictionUnobservableIff | internal/resilience/rate_limiter.go:83-173 | with fixed configurations, exactly when every bucket refills within the idle time |
| RateWindows.GrantedIff | internal/resilience/rate_limiter.go:83-173 | over every run of requests and harmless cleanups, of all tenants: a request is granted exactly when it asks for no more than the burst and, in every window that an earlier request of the tenant opens, what was granted and what it asks for stay within the burst and what the rate earns |
| RateWindows.WindowsConform | internal/resilience/rate_limiter.go:83-101 | in every window from one request of a tenant to the end of another, the tokens granted stay within that allowance |
| RateWindows.RetunedLevel | internal/resilience/rate_limiter.go:64-80 | after a change of configuration a tenant has the tokens it had, up to the new burst, earns at the new rate, and other tenants keep theirs |
| KinesisBuffer.TenantBuffer.AddEvent | internal/resilience/kinesis_buffer.go:362-374 | appends unless full, and counts either way |
| KinesisBuffer.TenantBuffer.GetEvents | internal/resilience/kinesis_buffer.go:388-403 | hands out everything buffered, in order, and empties the buffer |
| KinesisBuffer.Buffer.GetTenantBuffer | internal/resilience/kinesis_buffer.go:331-360 | one buffer per tenant, created empty on first use |
| KinesisBuffer.Buffer.FlushTenantBuffer | internal/resilience/kinesis_buffer.go:475-516 | sends batch after batch up to the first failure; the dead letters grow by the failed batch's events, one by one and in order; what is counted and returned |
| KinesisBuffer.Buffer.SendToDLQ | internal/resilience/kinesis_buffer.go:493-498 | the dead letters grow by exactly the batch's events in order, each under its tenant |
| KinesisBuffer.Buffer.AddWithFlush | internal/resilience/kinesis_buffer.go:283-308 | a full buffer is flushed once and the add retried; reply, buffer, dead letters and all counters |
| KinesisBuffer.Buffer.AddForTenant | internal/resilience/kinesis_buffer.go:280-308 | the same with the buffer looked up; other tenants' buffers are untouched |
| KinesisBuffer.Buffer.BufferEvent | internal/resilience/kinesis_buffer.go:269-329 | closed, throttled and accepted paths: reply, all buffers, counters and dead letters, and when an early flush is requested |
| KinesisBuffer.GroupBatch | internal/resilience/kinesis_buffer.go:521-537 | the grouping loops give each kind its events in batch order |
| KinesisBuffer.SelectKeepsOrder | internal/resilience/kinesis_buffer.go:521-537 | a kind's events are those of that kind, all of them, each at its own place and in the batch's order |
| KinesisBuffer.BatchSendsAllIff | internal/resilience/kinesis_buffer.go:526-648 | a batch sends each of its events once exactly when no legacy event's type is other than traces, metrics and logs |
| KinesisBuffer.LabelsAreSends | internal/resilience/kinesis_buffer.go:526-648 | a batch hands an event to the stream exactly as often as the account below says so |
| KinesisBuffer.JobParts | internal/resilience/kinesis_buffer.go:484-505 | a flush's events are published, dead-lettered, abandoned or in flight, in that order; nothing is abandoned when they fit one batch |
| KinesisBuffer.EveryEventAccountedFor | internal/resilience/kinesis_buffer.go:269-516 | over every interleaving, each accepted event is exactly once and in order sent or skipped in a published batch, in a failed batch, in the tail behind it, in flight or buffered |
| KinesisBuffer.CountersAreTotals | internal/resilience/kinesis_buffer.go:276-308 | over every interleaving, all five counters and the increments still owed by operations under way equal the totals over tenants, flushes and refusals |
| KinesisBuffer.TailPossibleIff | internal/resilience/kinesis_buffer.go:484-500 | a run that loses a tail exists exactly when a tenant may buffer more than one batch |
| KinesisBuffer.DefaultsLoseEvents | internal/resilience/kinesis_buffer.go:127-141 | the defaults are 500 and 1000, and admit such a run |
| KinesisBuffer.FlushIsARun | internal/resilience/kinesis_buffer.go:475-516 | an uninterrupted flush is one of the runs the theorems speak of, with the increments it owes |
| KinesisOutcomes.FlushEnds | internal/resilience/kinesis_buffer.go:475-516 | a flush of any buffer ends with its first failing send or with all of its batches sent |
| KinesisOutcomes.FlushSucceedsIff | internal/resilience/kinesis_buffer.go:484-516 | it succeeds exactly when every batch is sent; otherwise the batches before the first failing one are published and that one is dead-lettered |
| KinesisOutcomes.ThrottledCall | internal/resilience/kinesis_buffer.go:274-279 | a throttled event is told so, and changes nothing but the count of dropped events |
| KinesisOutcomes.RoomCall | internal/resilience/kinesis_buffer.go:280-308 | with room the event joins its tenant's buffer and is counted |
| KinesisOutcomes.FlushedCall | internal/resilience/kinesis_buffer.go:283-308 | a full buffer whose batches are all sent is left with the event alone, or empty if no buffer may hold one |
| KinesisOutcomes.FailedCall | internal/resilience/kinesis_buffer.go:283-300 | when batch k is the first that fails, its events and then the event are dead-lettered, the counters show the batches sent before, and the caller is told |
| KinesisCalls.ServeIsARun | internal/resilience/kinesis_buffer.go:269-329 | a BufferEvent call takes a reachable world to a reachable world with the buffers and counters the object then shows, and hands over the dead letters the world then owes |
| KinesisCalls.CallsAreARun | internal/resilience/kinesis_buffer.go:269-329 | after any sequence of calls the object shows a reachable world, and has handed over, for each tenant, the failed batches in order and the refused event of each failed flush |
| BatchProcessor.FlushMeaning | internal/streaming/batch_processor.go:405-442 | a flush makes one to three tries, tries again exactly until a success or a cancelled wait, and delivers exactly if some try made succeeds |
| BatchProcessor.NothingIsLostOrReordered | internal/streaming/batch_processor.go:217-303 | in every run accepted events are settled batches, then buffer, then channel; batch sizes, buffer bound, try bound; after exit only the channel is unsettled |
| BatchProcessor.TickFlushes | internal/streaming/batch_processor.go:277-287 | after every run a tick settles all that is buffered in one batch, with the tries its weather allows, and leaves an empty buffer as it is |
| BatchProcessor.ReceiveFillsBatch | internal/streaming/batch_processor.go:257-275 | a received event joins the buffer; a batch is settled exactly when that makes it full |
| BatchProcessor.PublishWaits | internal/streaming/batch_processor.go:235-241 | a published event waits at the channel's end, or is refused when the channel is full |
| BatchProcessor.QuitTriesOnce | internal/streaming/batch_processor.go:289-300 | a quit signal gives the buffered events one try and ends the loop |
| BatchProcessor.ShutdownLeavesChannel | internal/streaming/batch_processor.go:289-300 | a run in which an accepted event is left in the channel at exit |
| BatchProcessor.ExitedSettlesNothing | internal/streaming/batch_processor.go:289-300 | after the exit every run settles nothing more, and what is still accepted fills the channel |
| BatchProcessor.StreamProcessor.Send | internal/streaming/batch_processor.go:235-241 | the send never blocks: appended, or refused when the channel is full |
| BatchProcessor.StreamProcessor.FlushBatchSafely | internal/streaming/batch_processor.go:399-443 | the retry loop settles one batch with the tries it made, and reports all or nothing |
| BatchProcessor.StreamProcessor.HandleGracefulShutdown | internal/streaming/batch_processor.go:370-395 | one last try for what is buffered |
| BatchProcessor.StreamProcessor.ProcessBatch | internal/streaming/batch_processor.go:244-303 | the event loop performs exactly the run its signals describe |
| BatchProcessor.DeterminePartitionKey | internal/streaming/batch_processor.go:359-367 | a key is never empty, and is the trace, without one the service, without either the default |
| BatchProcessor.SharePartitionIff | internal/streaming/batch_processor.go:359-367 | exactly when any two events share a partition, the coincidence of a trace with a service name included |
| BatchLifecycle.BatchProcessor.OpenChannels | internal/streaming/batch_processor.go:185-199 | a new channel for each stream with a name, and their number |
| BatchLifecycle.BatchProcessor.Start | internal/streaming/batch_processor.go:171-213 | refusals leave everything as it was |
| BatchLifecycle.BatchProcessor.PublishAsync | internal/streaming/batch_processor.go:217-241 | empty and unknown stream types, a stopped processor and a full channel are refused; otherwise appended to that stream alone |
| BatchLifecycle.BatchProcessor.Stop | internal/streaming/batch_processor.go:447-491 | idle, stopped, timed out or panicking, with the state each leaves |
| BatchLifecycle.ClosedOnce | internal/streaming/batch_processor.go:447-491 | in every run the shutdown channel is closed by exactly one Stop, and is closed exactly if there was one |
| BatchLifecycle.StopPanicsIff | internal/streaming/batch_processor.go:445-491 | in every run Stop panics exactly when the processor counts as running after an earlier shutdown |
| BatchLifecycle.RestartedStopPanics | internal/streaming/batch_processor.go:445-491 | started, stopped and started again: the next Stop panics |
| BatchLifecycle.RunningAfterShutdown | internal/streaming/batch_processor.go:171-213 | after a shutdown it counts as running exactly if that Stop timed out or a later Start was accepted |
| BatchLifecycle.RestartStrandsEvents | internal/streaming/batch_processor.go:171-303 | in every run, after a shutdown and a later accepted Start the shutdown channel is still closed and every event published to a started stream is accepted until its channel is full; a stream that takes the closed channel settles none of them |
| LifecycleLaws.AnswersAre | internal/streaming/batch_processor.go:171-241 | in every run, exactly when each call of Start, Stop and PublishAsync gives each of its answers |
| LifecycleLaws.RunningIff | internal/streaming/batch_processor.go:171-491 | the processor counts as running exactly since an accepted Start that no Stop in time followed |
| LifecycleLaws.OpenIff | internal/streaming/batch_processor.go:185-199 | a stream type has a channel exactly when an accepted Start named it and no Stop in time, which drops all channels, followed |
| LifecycleLaws.ChannelHolds | internal/streaming/batch_processor.go:217-275 | a channel holds what was accepted for its stream type since it was opened, without what was taken, first come first served |
| DeadLetterQueue.DeadLetterQueue.constructor | internal/resilience/dead_letter_queue.go:59-88 | zero settings become the defaults |
| DeadLetterQueue.DeadLetterQueue.SendToDLQ | internal/resilience/dead_letter_queue.go:91-125 | a failed event is queued with retry count 0, in a body that decodes or not, or buffered when the queue refuses it |
| DeadLetterQueue.DeadLetterQueue.AddToLocalBuffer | internal/resilience/dead_letter_queue.go:173-186 | a full buffer loses its oldest event to the new one |
| DeadLetterQueue.DeadLetterQueue.ProcessLocalBuffer | internal/resilience/dead_letter_queue.go:188-209 | a drain tries the buffered events in order until it is cancelled and then puts back one; no event is lost exactly when no event but the last meets the cancellation |
| DeadLetterQueue.DeadLetterQueue.DeleteMessage | internal/resilience/dead_letter_queue.go:301-309 | removes that message, or nothing when the delete fails |
| DeadLetterQueue.DeadLetterQueue.ProcessMessage | internal/resilience/dead_letter_queue.go:249-289 | what does not decode is deleted; a failed event is written again with a higher count or given up; then the message is deleted |
| DeadLetterQueue.FallsIff | internal/resilience/dead_letter_queue.go:249-289 | the retry measure strictly falls with a processed message exactly when its delete goes through |
| DeadLetterQueue.ReceiptsAre | internal/resilience/dead_letter_queue.go:258-265 | the measure of a message is at most maxRetries + 1 - RetryCount, and equals it when everything written decodes |
| DeadLetterQueue.RunsAreBounded | internal/resilience/dead_letter_queue.go:249-289 | steps made plus measure left never exceed the initial measure |
| DeadLetterQueue.FailingRunsAreTight | internal/resilience/dead_letter_queue.go:258-279 | with a processor that always fails they are equal, for every queue |
| DeadLetterQueue.QueueDrains | internal/resilience/dead_letter_queue.go:249-289 | after that many messages the queue is empty |
| DeadLetterQueue.TriesAreBounded | internal/resilience/dead_letter_queue.go:257-266 | over every run, an event's tries plus the attempts its readable messages have left never grow, and stay until the first try |
| DeadLetterQueue.HandedOverIff | internal/resilience/dead_letter_queue.go:249-258 | an event SendToDLQ queued has been handed to the processor, once it is out of the queue, exactly when its body decodes; otherwise it was deleted undecoded |
| DeadLetterQueue.NothingIsRetried | internal/resilience/dead_letter_queue.go:250-255 | when nothing written decodes, every message is gone after one receipt and no event reaches the processor |
| DeadLetterQueue.FreshEventTries | internal/resilience/dead_letter_queue.go:249-275 | a fresh event is tried at most maxRetries + 1 times and given up only after exactly that many |
| DeadLetterQueue.GivenUpAfterAllTries | internal/resilience/dead_letter_queue.go:249-275 | an event is given up, as opposed to deleted undecoded, only after every attempt its message had left |
| DeadLetterQueue.EventsAreAccountedFor | internal/resilience/dead_letter_queue.go:249-289 | every copy of an event is queued, was deleted undecoded, or was settled once: processed, exhausted, or lost in sending it again |
| DeadLetterQueue.FailedDeleteDuplicates | internal/resilience/dead_letter_queue.go:264-277 | a failed attempt whose message cannot be deleted leaves the event queued twice |
| DeadLetterFates.ReceiptWithoutSend | internal/resilience/dead_letter_queue.go:249-289 | when nothing is sent again the queue loses the received message, if its delete goes through, and keeps the order of the others |
| DeadLetterFates.ReceiptWithSend | internal/resilience/dead_letter_queue.go:260-278 | a retry is written behind the others: the same event, its count one higher |
| DeadLetterFates.FatesAre | internal/resilience/dead_letter_queue.go:249-289 | in every run, exactly when a received message is invalid, undecoded, processed, sent again, lost in sending or given up |
| DeadLetterFates.LifeOfAnEvent | internal/resilience/dead_letter_queue.go:249-289 | an event that is queued alone and decodes: while attempts fail it is queued with their number, attempt maxRetries + 1 is the last, and success takes it out |
| DeadLetterQueue.BufferKeepsLast | internal/resilience/dead_letter_queue.go:177-184 | between drains the buffer is the last N of what it held and was given, in order |
| DeadLetterQueue.Pow | internal/resilience/dead_letter_queue.go:323-332 | the power for whole exponents from 1, 1 for 0, the base for anything else below 1 |
| DeadLetterQueue.PowerLaws | internal/resilience/dead_letter_queue.go:323-332 | the first power is the base, and powers multiply as exponents add |
| DeadLetterQueue.DeadLetterQueue.CalculateRetryDelay | internal/resilience/dead_letter_queue.go:311-320 | the truncated base times power, capped |
| DeadLetterQueue.BackoffGrows | internal/resilience/dead_letter_queue.go:311-320 | with a multiplier of at least one, delays start at the base, never shrink and stay below the cap |
| DeadLetterQueue.DelayIsLargest | internal/resilience/dead_letter_queue.go:311-320 | the delay is the largest whole number of nanoseconds that exceeds neither the cap nor base times power |
| DeadLetterQueue.DefaultDelays | internal/resilience/dead_letter_queue.go:66-74 | the default delays are 5, 10, 20, 40, 80, 160 and from then on 300 seconds |
| FastHash.FastHash64 | internal/validation/schema.go:242-269 | the two loops compute the chunked hash |
| FastHash.PublishedValues | internal/validation/schema.go:242-269 | the published 64-bit FNV-1a values of short inputs |
| FastHash.EightByteHashesInjective | internal/validation/schema.go:242-269 | eight-byte identifiers never collide |
| FastHash.TwoByteHashesInjective | internal/validation/schema.go:242-269 | identifiers of one or two bytes never collide with each other |
| FastHash.OnlyPartner | internal/validation/schema.go:242-269 | an identifier shorter than eight bytes collides with exactly one of eight bytes |
| FastHash.CollideIff | internal/validation/schema.go:242-269 | identifiers of up to eight bytes collide exactly when they are, or have as their only partner, the same eight bytes |
| FastHash.OneByteCollides | internal/validation/schema.go:242-269 | a single byte collides with itself padded by seven zeros |
| SpanValidator.HotPathValidator.Reset | internal/validation/schema.go:72-85 | a pooled validator is empty whatever it held |
| SpanValidator.AttributesMeaning | internal/validation/schema.go:202-239 | no attribute error exactly when every attribute is present, has a key of 1 to 256 bytes and, in strict mode, a value of at most 4096 |
| SpanValidator.SchemaValidator.ValidateAttributes | internal/validation/schema.go:202-220 | the first attribute error |
| SpanValidator.SchemaValidator.ValidateSpanInline | internal/validation/schema.go:166-223 | one span's first error and the identifiers seen after it |
| SpanValidator.SchemaValidator.ValidateSpansHotPath | internal/validation/schema.go:126-163 | the loop unrolled by four equals the plain left-to-right scan |
| SpanValidator.SchemaValidator.ValidateScopes | internal/validation/schema.go:109-119 | the scopes of one resource, scanned in order |
| SpanValidator.SchemaValidator.ValidateTraceData | internal/validation/schema.go:93-123 | exactly the first error of a plain scan, whatever the pooled validator held |
| SpanErrors.ErrorIsFirstFailing | internal/validation/schema.go:93-239 | the error is that of the first failing test in the flat list of all tests of a request, each against the identifiers before it |
| SpanValidator.AcceptedIff | internal/validation/schema.go:93-223 | accepted exactly when nothing is malformed and the identifier hashes differ across all scopes; then the identifiers differ |
| SpanValidator.EightByteIDsAcceptedIff | internal/validation/schema.go:93-269 | with eight-byte span identifiers, accepted exactly when well-formed and pairwise distinct |
| SpanValidator.TwoByteIDsAcceptedIff | internal/validation/schema.go:93-269 | with identifiers of one or two bytes, accepted exactly when well-formed and pairwise distinct |
| SpanValidator.ShortIDsAcceptedIff | internal/validation/schema.go:93-269 | with identifiers of up to eight bytes, accepted exactly when well-formed and no two are, or have as partner, the same eight bytes |
| SpanValidator.FalseDuplicate | internal/validation/schema.go:179-187 | well-formed requests with two different identifiers that are refused as duplicates |
| ConfigReload.Merge | internal/config/base/functions.go:135-147 | a key is set exactly when some layer sets it, to what the last such layer says |
| ConfigReload.MergeIsUnique | internal/config/base/functions.go:135-147 | that rule determines the merge |
| ConfigReload.AllUnique | internal/config/base/functions.go:335-345 | no collision exactly when all values differ; otherwise the first one, with both indices |
| ConfigReload.ValidateAll | internal/config/manager.go:99-143 | accepts exactly what the sections accept with pairwise different ports and HTTP paths |
| ConfigReload.FetchLayers | internal/config/manager.go:186-197 | all layers in order, or nothing when one load fails |
| ConfigReload.CreatePlan | internal/config/manager.go:289-307 | elided, failed or replaced, from the merged configuration |
| ConfigReload.Manager.Reload | internal/config/manager.go:410-435 | a failed or elided reload changes nothing; otherwise snapshot, fingerprint and broadcast change together |
| ConfigReload.MissingLayerFails | internal/config/manager.go:186-197 | in every run a reload with a layer that cannot be loaded fails and changes nothing |
| ConfigReload.ReloadSucceedsIff | internal/config/manager.go:289-435 | otherwise it succeeds exactly when the fingerprint is the last one and not zero, or the merge decodes to a valid snapshot whose ports and paths differ; such a snapshot with another fingerprint is then published, and broadcast if there was one before |
| ConfigReload.PublishedIsJustified | internal/config/manager.go:289-307 | over every run, a published snapshot is the decoding of some loaded merge that passed all validation, with that merge's fingerprint |
| ConfigReload.BroadcastsChain | internal/config/manager.go:427-433 | broadcasts are issued as one unbroken chain of snapshots ending in the published one |
| Delivery.DeliveredOnce | internal/config/manager.go:386-408 | every broadcast issued is handled by a subscriber once or still pending |
| Delivery.SeenInOrderIff | internal/config/manager.go:395-432 | a subscriber sees the chain in order exactly when no broadcast overtakes an older one |
| Delivery.Overtaken | internal/config/manager.go:395-432 | a run of two broadcasts that are seen out of order |
| ConfigReload.SuccessfulReloadIsCurrent | internal/config/manager.go:289-295 | short of a fingerprint collision, a reload without error leaves published exactly what its providers said, elided or not |
| Debounce.Watcher.Notify | internal/config/manager.go:327-331 | leaves a token and never blocks |
| Debounce.Watcher.StopAndDrain | internal/config/manager.go:351-356 | afterwards the timer neither runs nor has a tick waiting |
| Debounce.Watcher.Arm | internal/config/manager.go:345-359 | a fresh full interval, whatever the timer was doing |
| Debounce.Watcher.Select | internal/config/manager.go:361-383 | one turn of the loop for each ready case |
| Debounce.NoSignalIsLost | internal/config/manager.go:319-384 | in every reachable state, a signal not yet followed by a reload is a waiting token or a live timer |
| Debounce.SignalIsServed | internal/config/manager.go:361-383 | an owed signal leads to a reload within eight working steps, and some step is always possible once the deadline has come |
| Debounce.ReloadWaits | internal/config/manager.go:340-383 | a reload starts only a full interval after the last signal taken |
| Debounce.SignalsCoalesce | internal/config/manager.go:320-332 | reloads never outnumber signals taken, nor those signals given |
| Debounce.FlagsAre | internal/config/manager.go:319-384 | in every run: a token waits since a signal that none was taken after, the tick is selected on since a signal was taken, a reload runs since a tick was taken, and the watcher has stopped once cancelled |
| Debounce.NothingElse | internal/config/manager.go:361-383 | nothing happens after cancellation, and nothing but more signals while a reload runs |
| Fingerprint.EntryBytesInjective | internal/config/base/functions.go:157-160 | different entries write different bytes when keys hold no zero byte |
| Fingerprint.FoldOrderFree | internal/config/base/functions.go:156-162 | the fold of the entries is the same for every order of the keys |
| Fingerprint.Fingerprint | internal/config/base/functions.go:153-170 | the same result for every map iteration order |
| Fingerprint.FinaliseIsBijection | internal/config/base/functions.go:163-168 | the finaliser has an inverse on 64-bit words |
| Fingerprint.SameFingerprintIff | internal/config/base/functions.go:163-168 | fingerprints agree exactly when the folds do |
| Fingerprint.OneChangeSeenIff | internal/config/base/functions.go:156-162 | changing one value changes the fold exactly when it changes its entry's hash |
| Fingerprint.EntryCancels | internal/config/base/functions.go:156-162 | the fold without one entry is the fold with that entry's hash xored in again |
| Fingerprint.FinalValues | internal/config/base/functions.go:163-168 | the finaliser's values at 0, 1 and the largest word |
| SecretPlaceholders.LocateFinds | internal/config/secrets_integration.go:127-137 | the placeholder read is the first `${` with the first `}` behind it |
| SecretPlaceholders.StepReplaces | internal/config/secrets_integration.go:151-167 | one call replaces exactly that placeholder by its secret or default |
| SecretPlaceholders.HoleIsFilled | internal/config/secrets_integration.go:137-170 | one call on a text's first hole puts in the secret, else a nonempty default, else reports the name; it goes on while a `${` is left |
| SecretPlaceholders.StepDropsDollar | internal/config/secrets_integration.go:161-167 | the number of `$` strictly falls at each recursive call, nested defaults included |
| SecretPlaceholders.Terminates | internal/config/secrets_integration.go:120-170 | resolution ends after at most one call per `$` when secret values hold none |
| SecretTermination.EndsIff | internal/config/secrets_integration.go:120-170 | a text ends in some number of calls exactly when filling its holes one at a time does |
| SecretTermination.TextEndsIff | internal/config/secrets_integration.go:151-167 | for delimited segment lists: a text ends exactly when the secrets it reaches before a failure can be ranked, each above all that its value names before the value fails |
| SecretTermination.ResolutionEndsIff | internal/config/secrets_integration.go:151-167 | every such text ends exactly when all secrets can be ranked so |
| SecretTermination.CycleNeverEnds | internal/config/secrets_integration.go:161-167 | values that name each other in a circle are never resolved |
| SecretTermination.SelfReferenceNeverEnds | internal/config/secrets_integration.go:161-167 | a secret that names itself is never resolved, however many calls are made |
| SecretTermination.FailureCutsCycle | internal/config/secrets_integration.go:153-158 | a value that names itself behind a hole that cannot be filled does end |
| SecretPlaceholders.NothingLeft | internal/config/secrets_integration.go:120-170 | a successful result has no complete placeholder, for any secrets |
| SecretPlaceholders.ResolveIsOnePass | internal/config/secrets_integration.go:120-170 | where `$` and braces only delimit, the result is one left-to-right expansion, failing on the first hole without secret and default |
| Text.IndexIsLeast | internal/config/secrets_integration.go:127-132 | a search finds the least position, or there is none |
| SubstringCount.FindInString | internal/handlers/base.go:504-528 | the least index at which the text occurs, or -1 when it occurs nowhere |
| SubstringCount.CountKey | internal/handlers/base.go:488-500 | the scanning loop counts the greedy occurrences |
| SubstringCount.GreedyIsMaximal | internal/handlers/base.go:491-498 | no family of disjoint occurrences is larger than the greedy one |
| SubstringCount.GreedyIsOptimal | internal/handlers/base.go:485-501 | the greedy count is the maximum number of disjoint occurrences, and is attained |
| SubstringCount.CountSpansInOTLP | internal/handlers/base.go:485-501 | the count is the maximum number of disjoint occurrences of the key in any string |
| TraceParent.EncodeDigits | api/rest/middleware/tracing.go:222-243 | generated identifiers are lower-case digits of the right length, all zero only for zero bytes |
| TraceParent.EncodedAt | api/rest/middleware/tracing.go:222-254 | each byte shows as its two digits, the high one first |
| TraceParent.SplitMatched | api/rest/middleware/tracing.go:156-169 | a header that matches the expression splits into its four fields |
| TraceParent.ParsePrinted | api/rest/middleware/tracing.go:155-200 | parsing a printed valid context gives it back |
| TraceParent.PrintParsed | api/rest/middleware/tracing.go:155-200 | printing a parsed header's fields gives the header back |
| TraceParent.ParsesIff | api/rest/middleware/tracing.go:155-200 | exactly the printed forms of valid identifiers parse (section 3.2 of W3C Trace Context) |
| TraceParent.GenerateNewTraceContext | api/rest/middleware/tracing.go:203-219 | a sampled root context |
| TraceParent.ExtractOrGenerateTraceContext | api/rest/middleware/tracing.go:106-152 | continues the caller's trace with its flags and the incoming span as parent, else a legacy trace, else a new one |
| TraceParent.ContinuesCaller | api/rest/middleware/tracing.go:108-128 | a request with a printed header of valid identifiers: trace, flags and state are kept, the caller's span becomes the parent, and the request identifier is the caller's if there is one |
| TraceParent.StartsTrace | api/rest/middleware/tracing.go:130-152 | any other request starts a sampled trace without a parent: under the older header's identifier and with the caller's request identifier where the former is well formed, else with random ones |
| TraceParent.EmittedParsesIff | api/rest/middleware/tracing.go:106-152 | exactly when the header sent on parses, in each of the three cases |
| TraceParent.NextHopContinues | api/rest/middleware/tracing.go:106-128 | whoever is handed the emitted header in a request stays in the trace, keeps the sampling decision and takes this span as parent |
| TraceParent.UpperCaseLegacyIsRefused | api/rest/middleware/tracing.go:131-147 | a legacy identifier that is accepted although the header built from it does not parse |
| PartitionKey.RoundTripIff | internal/consumer/kinesis_consumer.go:392-410 | every printed key is recognised and parsed; service and trace come back exactly when neither contains a colon |
| PartitionKey.ParseIff | internal/consumer/kinesis_consumer.go:392-410 | every key: nothing without the prefix, nothing without a colon behind it, else the texts before the next two colons, the second of which may be missing |

## Left out

- AWS, SQS, Kinesis and HTTP clients, logging, metrics export, routing: I/O; their answers are parameters.
- `golang.org/x/time/rate` itself: a token bucket that starts full stands for it. Wait and Reserve, which
  let tokens go negative, are not modelled, and an Allow call is one instant with its cache update.
- RateLimiter.TenantRateLimiter.constructor: bursts are not negative and rates are finite; the theorems about
  eviction ask for rates that are not negative.
- RateLimiter.ReconfiguredUnobservableIff: SetLimit and SetBurst of one SetTenantConfig call are one instant.
- BreakerGuarantees.TimesAddUp: speaks of runs whose metrics start at a positive time, as Unix times do.
- Clocks are real numbers; a clock with ticks has fewer runs, so what holds of every run holds there, and a
  run that is shown to exist may need a finer clock.
- GlobalLimiter.GlobalRateLimiter.constructor: bursts are not negative and half of them fits 32 bits.
- GlobalLimiter.PromptSticksIff: a request's poll, token and entry share one clock reading;
  LaggingSticksIff has them apart. Rates are not negative in any of the three theorems.
- 32-bit and 64-bit counter wrap-around, rounding of floating-point numbers and the overflow of a backoff
  delay that exceeds the range of a duration.
- KinesisBuffer: the worker pool, the job queue, periodic flushing and averages; a flush is a sequence of
  sends that other steps may interleave with, whoever started it. Negative buffer sizes are not modelled.
- KinesisCalls.CallsAreARun: the calls follow each other; the dead letters are related tenant by tenant, and
  their order across tenants is in the object's contract alone.
- KinesisBuffer: which events of a batch were published before its send failed; the whole batch is then
  dead-lettered, so an event may be both.
- BatchProcessor: events that fail to marshal and records the stream service rejects one by one; a batch
  is delivered or not.
- BatchProcessor: context cancellation and closed channels are the same quit signal; intervals of the
  ticker are left to the run.
- DeadLetterQueue: which bodies decode is a parameter, with the code's own case proved.
- DeadLetterQueue.DeadLetterQueue.ProcessLocalBuffer: no event is added to the buffer during the drain.
- RateWindows.GrantedIff: cleanups are part of the run where the tenant's bucket refills within the idle time,
  and changes of configuration are not; rates are not negative.
- DeadLetterFates.LifeOfAnEvent: the event is alone in the queue; `FatesAre` speaks of any queue.
- GlobLaws.ClassLaw: the class begins as the code reads it: no `]` first, and no `^` first when not negated.
- ConfigReload: the section decoders and validators are parameters; keys and prefixes of the resolver and
  the subscriber table are left out. One Reload runs at a time.
- ConfigReload.SuccessfulReloadIsCurrent: assumes that no two configurations of the run share a
  fingerprint; nothing is claimed about the hash, whose seed is fresh for each call.
- Debounce: a reload's outcome is not part of the watcher's state; stopping, draining and resetting the
  timer is one step.
- Delivery: one subscriber that is registered throughout.
- SecretTermination.EndsIff: texts and secret values are segment lists in which `$` and braces only delimit.
- SecretTermination.TextEndsIff: the same segment lists.
- SecretTermination.ResolutionEndsIff: the same segment lists.
- FastHash.CollideIff: for identifiers of three to seven bytes the partner is computed from the hash of all
  bytes but the last; no condition on their bytes alone is given.
- SpanValidator.ShortIDsAcceptedIff: as FastHash.CollideIff.
- SecretPlaceholders: the recursion is given a number of calls, and `None` means it is not finished;
  walking nested configuration values is left out.
- SubstringCount.CountKey: the key is a parameter of the loop, which the source fixes.
- TraceParent: identifiers generated from the clock when the random source fails.
- PartitionKey: which record fields the payload fills after the key was parsed.
- api/rest/compression.go: response buffering, which writes the threshold-crossing chunk twice.
- Metrics and logs validation, sanitizers, health checks, section defaults and bounds: each settled by
  reading one branch.
