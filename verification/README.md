# Penstock, verified

Penstock is a gateway in front of LLM providers. It decides who may spend what, answers from a
cache when it can, picks a provider, relays its stream and settles the bill. This project models
the parts that decide, and proves what they promise:

- **Budget.** `BudgetModel` is the reserve / settle / release protocol as functions; `Enforcer` is
  the object that updates its counters in place, each method proved equal to its function.
  `BudgetRuns` is every interleaving of calls, late and failing store writes and restarts, with the
  history they leave. Over it: conservation of money (`BudgetConservation`, `BudgetTheorems`), the
  documented overshoot bound, sliding request rates (`BudgetRates`), what the token window holds
  (`BudgetTokens`), who is refused and why (`BudgetAdmission`), the durable mirror and what a crash
  loses (`BudgetDurability`, `BudgetCrash`). `Pricing`, `Guard` and `Handlers` follow a
  request from the cache lookup to its closed reservation. `Requests` runs any number of handlers
  (cached hits, whole answers, streams, upstream failures, lost clients) under any schedule and shows
  each of their steps to be a moment of `LedgerRuns`, where ledger and balance are proved to agree;
  `RequestsInTurn` ties the same to the handler's own contract, one request after another. `Answers`
  is what a request is billed with, what it stores, and what a later request is served of that.
- **Exact cache.** `ExactCache` is the pointer structure (doubly linked list, map of maps, buffers
  on the heap); it refines the duplicate-free list of `RecencyList`, over whose runs retention is
  proved.
- **Streams.** `SseSpec` reads an event stream as a function of its bytes (WHATWG HTML Living
  Standard, sections 9.2.5 and 9.2.6, LF and CRLF line ends) and `SseRoundTrip` reads back what a
  server may write; `SseScanner` is the scanner over a reader that may split lines anywhere.
  `StreamSpec` and `StreamReaders` are the three provider readers, `Translation` what their events
  mean without a reader, `Truncation` what they make of a body cut short. `RelaySpec`, `RelayTheorems` and `Relay`
  are the relay, its recorder and its replay, read back by a client on the same wire.
- **Router.** `Policy`, `HealthModel`, `HealthLaws` and `Health` (circuit breaker and cooldowns), `SelectorSpec`,
  `RoundRobinSpec` and `Selector` (the three orders), `ChainSpec` and `Orchestrator` (the attempt
  loop), `NamedWaits` (what becomes of a wait an upstream names).
- **Semantic store and cache key.** `Similarity` (cosine), `SemanticSpec`, `SemanticLaws` and
  `SemanticStore`; `JsonText` and `CacheKey`.
- **Plot clipping.** `Clipping`.

Money, scores and latencies in averages are exact (`real` or integer arithmetic); time is `int`
nanoseconds and does not run backwards; a critical section is one step. Bytes are characters, one
each, except in `JsonText` and `CacheKey`, where a character is a code point. Library code is a
parameter with a stated property (`sqrt`, the hash; for encoding/json `CacheKey.Library`, which
`CacheKey.LibraryExists` shows can be met) or a contract (`ReadSlice`);
what providers, clients, stores and clocks do is an argument. `Settle` is two steps
(`SettleLocked`, `Persist`), so that runs can put anything between them.

Where code and comments of the repository disagree, the code is modelled:

- internal/router/selector.go:139-141 calls counter wraparound harmless. It is not when the
  wrap falls inside a call and the number of available providers does not divide 2^64: one provider
  then appears twice and one is missing (`RoundRobinSpec.TornExample`;
  `RoundRobinSpec.PermutationUnlessTorn` is the exact condition).
- A body cut inside an oversized comment line delivers a keepalive that the whole body does not
  (`Truncation.TornExample`); `Truncation.PrefixUnlessTorn` is the exact condition.
- docs/architecture.md:276-277 promises that a rate-limited provider waits for whatever Retry-After
  it sent. internal/router/orchestrator.go:176 reports every failure with a zero Retry-After, and an
  upstream error has no field for one (internal/providers/errors.go:32-38). `NamedWaits` gives an
  input for which the wait is forgotten (`TenMinutesForgotten`) and the exact conditions under which
  it is kept all the same (`CooldownKeepsWait`, `HonouredExactlyWhen`).
- internal/cache/key.go:34-36 drops `stream` from the key because an entry serves a caller who asked for
  either form. An entry of a stream has no body (internal/ingress/handlers.go:482-489), so a caller who
  then asks for a body is answered from the cache with nothing in it (`Answers.EmptyExample`);
  `Answers.EmptyHitExactly` is the exact condition.
- internal/providers/sse.go:83 trims every CR at a line's end, so on a wire with CRLF line ends
  a body cut between the two bytes of its last line end is read as whole (`Truncation.CRLFExample`);
  `Truncation.CutEndsComplete` is the exact condition.

A ledger row is stamped when it is written (internal/budget/guard.go:108), a moment after the
settlement it records, so adding rows up by stamp can overstate a window;
`LedgerRuns.StampsOverstate` says by exactly how much, and `LedgerRuns.StampsDoOverstate` is a run in
which it does.

## Model

| member | source | states |
|---|---|---|
| BudgetModel.RemainingIn | internal/budget/enforcer.go:455-461 | a wait is always positive, and inside a window it ends exactly with the window |
| BudgetConservation.RunKeeps | internal/budget/enforcer.go:41-461 | every reachable state, across restarts, keeps the whole accounting invariant |
| BudgetConservation.FloorIsDead | internal/budget/enforcer.go:265-268 | the claim given back never exceeds what is committed, so the floor at zero never acts |
| BudgetTheorems.Conservation | internal/budget/enforcer.go:198-395 | committed is the sum of open estimates; each spend figure is what its window opened with plus what was settled in it |
| BudgetTheorems.ClampNeverActs | internal/budget/enforcer.go:265-268 | the same for any issued and open reservation, as a caller sees it |
| BudgetTheorems.RepeatsChangeNothing | internal/budget/enforcer.go:254-258 | erasing every repeated Settle and Release from a history leaves the identical state |
| BudgetTheorems.UndershotIsOverdraft | internal/budget/types.go:11-26 | the running undershoot is the sum over requests in flight at the latest admission and settled since |
| BudgetTheorems.OvershootBound | internal/budget/types.go:11-26 | per cap, spent + committed is at most the cap, or the restored balance while the window it was restored into lasts, plus what requests in flight at the latest admission overran their estimates |
| BudgetTheorems.OvershootBoundFresh | internal/budget/types.go:11-26 | in one process, the bound is against the configured cap alone |
| BudgetRates.SlidingMinute | internal/budget/enforcer.go:386-407 | any half-open minute holds at most twice RequestsPerMinute admissions |
| BudgetRates.RetryAfterSuffices | internal/budget/enforcer.go:399-407 | a request refused for rate that waits exactly RetryAfter is not refused for it again if nobody else got in |
| BudgetTokens.WindowHolds | internal/budget/enforcer.go:272-280 | over any run, the token window holds what its requests used if settled and were estimated at if not, while no settlement in it is of an earlier window's request |
| BudgetTokens.RefusedForTokens | internal/budget/enforcer.go:408-418 | refused for tokens if and only if the request rate allows it and the estimate does not fit beside what the window holds |
| BudgetTokens.OneWindow | internal/budget/enforcer.go:272-280 | admitted and settled inside one window, a request leaves it at what it held before and what was really used |
| BudgetTokens.LaterWindow | internal/budget/enforcer.go:275-280 | whichever window a settlement falls in, an overrun is charged to it in full and a saving taken off as far as it holds one |
| BudgetAdmission.RefusedExactly | internal/budget/enforcer.go:198-237 | over any run, refused if and only if a limit would break, counted from the history, for the first in the code's order, with the end of its window as the wait |
| BudgetAdmission.ShutOutExactly | internal/budget/enforcer.go:202-220 | the two refusals before any limit, neither of which moves anything |
| BudgetAdmission.HealthIsLastVerdict | internal/budget/enforcer.go:313-340 | the store counts as healthy exactly when the latest write that was not stale, mark or start says so |
| BudgetAdmission.WindowsLast | internal/budget/enforcer.go:378-394 | within a process no window ends before its whole length |
| BudgetCrash.StoredRowIsTheWrittenSnapshot | internal/budget/enforcer.go:313-340 | whatever the order of writes, failures and restarts, the stored row is the snapshot numbered written, and every later one is pending or failed |
| BudgetCrash.WrittenNeverFalls | internal/budget/enforcer.go:317-338 | the number written only grows within a process |
| BudgetCrash.CrashLosesTheUnwritten | internal/budget/enforcer.go:128-166 | with no rollover since, a crash loses exactly the settlements numbered above what was written, in both windows |
| BudgetCrash.CleanRestartLosesNothing | internal/budget/enforcer.go:128-166 | with the newest snapshot written, both spend figures after a restart equal those without it, at any later time |
| BudgetCrash.PutBackKeepsItsRow | internal/budget/enforcer.go:143-163 | a tenant removed from and returned to the configuration finds its row as it left it |
| Enforcer.TenantState.RollTo | internal/budget/enforcer.go:378-394 | each of the four windows turns over on its own |
| Enforcer.TenantState.Charge | internal/budget/enforcer.go:262-280 | claim back, cost on, token window reconciled and floored |
| Enforcer.MemEnforcer.constructor | internal/budget/enforcer.go:128-166 | a new enforcer holds exactly the stored rows of configured tenants |
| Enforcer.MemEnforcer.StateFor | internal/budget/enforcer.go:363-395 | the tenant's record, made or rolled, nothing else touched |
| Enforcer.MemEnforcer.Spent | internal/budget/enforcer.go:184-190 | both figures as of now, and the window it may move |
| Enforcer.MemEnforcer.Committed | internal/budget/enforcer.go:192-196 | the committed figure as of now |
| Enforcer.MemEnforcer.Reserve | internal/budget/enforcer.go:198-237 | new state and answer equal the value-level Reserve, refusals in the code's order |
| Enforcer.MemEnforcer.SettleLocked | internal/budget/enforcer.go:250-303 | the locked half of Settle, ending in a numbered snapshot |
| Enforcer.MemEnforcer.Persist | internal/budget/enforcer.go:313-340 | a stale snapshot is dropped, a failed one marks the store unhealthy, any other replaces the row |
| Enforcer.MemEnforcer.Settle | internal/budget/enforcer.go:246-304 | both halves in a row; a nil reservation is an error without effect |
| Enforcer.MemEnforcer.Release | internal/budget/enforcer.go:342-361 | gives the claim back once |
| Pricing.CostNeverCredits | internal/pricing/pricing.go:83-98 | with valid rates no token counts, negative ones included, price below zero |
| Pricing.CostIsRates | internal/pricing/pricing.go:83-98 | a million tokens of either kind cost its rate, costs of counts add up, a negative count is none and free is free |
| Pricing.EstimateNeverNegative | internal/budget/estimator.go:206-229 | no estimate, priced, unpriced or unrouted, is below zero under valid rates |
| Pricing.PricesNotShared | internal/pricing/pricing.go:100-102 | provider kinds without the separator never share a price key by accident |
| Guard.Guard.Begin | internal/budget/guard.go:70-76 | nothing without a budget, else the enforcer's Reserve on the estimate |
| Guard.Guard.Settle | internal/budget/guard.go:86-96 | the books settle at the price and the ledger gains exactly one row if it takes it |
| Guard.Guard.Record | internal/budget/guard.go:103-123 | one row or none, never an error for the request |
| Guard.Guard.Abort | internal/budget/guard.go:127-134 | a claim goes back |
| Guard.PriceIsRate | internal/budget/guard.go:86-96 | a bill is the table's rate for the kind of the provider that answered and its model; what the table does not price costs nothing |
| Guard.EstimateIsBill | internal/budget/estimator.go:206-229 | an estimate is priced as the bill for the same counts is, for the model and provider that will be billed |
| Handlers.Server.SettleOrAbort | internal/ingress/handlers.go:130-140 | measured usage settles, its absence releases |
| Handlers.Server.ServeChat | internal/ingress/handlers.go:142-179 | closed with the usage reported and priced for whoever answered, or released on failure; the answer written and handed out to store |
| Handlers.Server.ServeStreamed | internal/ingress/handlers.go:186-302 | relayed bytes, closing with the last usage reported, storing only whole answers |
| Handlers.Server.SettleStream | internal/ingress/handlers.go:475-497 | a completed recording is handed out to store, and the reservation closed with the last usage reported, however the relay ended |
| Handlers.ServeCached | internal/ingress/cached.go:22-45 | a stored answer in the form asked for, or a refusal that writes nothing |
| Handlers.Server.HandleChatCompletions | internal/ingress/handlers.go:80-124 | books, ledger rows, kind of reply, bytes written and answer stored are those of Handle, for every request and every world |
| Answers.MeasuredByLast | internal/ingress/handlers.go:262-302 | a stream is measured by the last usage among the chunks reached before the client stopped, or not at all |
| Answers.RowExactly | internal/ingress/handlers.go:126-140 | a request adds a ledger row if and only if it was let through, measured, and the ledger takes it |
| Answers.RowBillsIt | internal/budget/guard.go:103-123 | the row names who answered and with which model, the counts that were reported, and their own price |
| Answers.StoredExactly | internal/ingress/handlers.go:164-173 | a whole answer is always stored, a stream if and only if upstream finished it, the client took every chunk, and it has data within the ceiling |
| Answers.BodyServedAgain | internal/ingress/cached.go:22-50 | stored and asked for again as a body: the upstream's body is written, and neither books nor ledger move |
| Answers.StreamServedAgain | internal/ingress/cached.go:68-99 | stored and asked for again as a stream: a client reads the upstream's data chunks in order, and a complete end |
| Answers.StreamReads | internal/ingress/handlers.go:186-302 | a stream served reads back as its chunks, and as complete exactly when upstream finished it |
| Answers.StreamFromStream | internal/ingress/cached.go:74-79 | a stream is served from the cache if and only if the answer was streamed and the writer can flush |
| Answers.EmptyHitExactly | internal/cache/key.go:34-36 | a hit comes back empty if and only if a body is asked for of an answer that was streamed, or that was empty |
| Answers.EmptyExample | internal/ingress/cached.go:46-50 | one streamed answer, asked for again as a body: served from the cache, with nothing in it |
| LedgerRuns.RunKeeps | internal/ingress/handlers.go:94-179 | the ledger invariant holds in every state that interleaved moments reach |
| LedgerRuns.LedgerAccountsForSpend | internal/budget/guard.go:78-85 | Spent equals the rows settled in its window plus what is unwritten or lost |
| LedgerRuns.ClosedExactlyOnce | internal/ingress/handlers.go:126-129 | each settlement is one row, pending or lost, and nothing else is; each request is open or closed, never both |
| LedgerRuns.NothingOpenNothingCommitted | internal/ingress/handlers.go:126-129 | with none of a tenant's requests open, nothing of its is committed |
| LedgerRuns.LedgerAgrees | internal/budget/guard.go:78-123 | with every row written, the tenant's rows sum to each Spent figure and what was settled before its window, never less |
| LedgerRuns.FirstDayAgrees | internal/budget/guard.go:78-123 | inside the first day, with every row written, the tenant's rows sum to both Spent figures |
| LedgerRuns.StampsOverstate | internal/budget/guard.go:107-119 | added up by stamp, a complete ledger exceeds either window's spend by exactly the rows that straddle its start |
| LedgerRuns.StampsDoOverstate | internal/budget/guard.go:107-119 | a run that overstates the day by any given amount |
| Requests.MomentAllowed | internal/ingress/handlers.go:126-140 | whatever a handler does next to books or ledger is allowed there: its reservation is still open, its charge not negative, its row still owed |
| Requests.RunKeeps | internal/ingress/handlers.go:94-302 | under any schedule, open reservations are those some handler holds, unwritten rows those some handler owes, pending snapshots those some handler still has to save |
| Requests.AlwaysAccounted | internal/budget/guard.go:78-123 | at any moment of any schedule, Spent is what the ledger holds for its windows, what is on its way and what was lost, and each request is closed at most once |
| Requests.NothingLeft | internal/ingress/handlers.go:126-140 | when all handlers are done no reservation is open and no row unwritten |
| Requests.BooksBalance | internal/ingress/handlers.go:94-302 | after any schedule of any requests nothing is committed, each settlement is one row, and a tenant's rows sum to Spent and what was billed before its window; inside the first day to Spent |
| RequestsInTurn.OneVisit | internal/ingress/handlers.go:80-179 | with nobody else about, four steps of a handler leave the books, the rows and the reply that Handle says |
| RequestsInTurn.InTurn | internal/ingress/handlers.go:80-179 | handlers run one after another are a schedule, and leave what HandleAll says |
| RequestsInTurn.RequestsBalance | internal/ingress/handlers.go:80-179 | after any list of handled requests nothing is committed, each request has at most one row, and a tenant's rows sum to at least Spent and, inside the first day, to exactly it |
| RequestsInTurn.RowsReprice | internal/budget/guard.go:103-123 | every row of any list of requests costs what the table says of its own provider, model and counts |
| RecencyList.RunKeeps | internal/cache/exact.go:110-199 | the list invariant over all runs |
| RecencyList.Retention | internal/cache/exact.go:141-199 | a Get is a hit if and only if the latest Put of its key is less than TTL old and at no moment since its last use did MaxEntries other keys, stored or hit since and not found expired since, count against it; the hit is that Put's payload |
| RecencyList.HeldExactly | internal/cache/exact.go:110-199 | what is held, and in which order, told from what was stored, hit and missed |
| RecencyList.GoneOnceFound | internal/cache/exact.go:110-120 | an entry asked for after its time is gone: what is held under a key just asked for is less than TTL old |
| ExactCache.Exact.Unlink | internal/cache/exact.go:258-271 | takes a node out of the linked list |
| ExactCache.Exact.PushFront | internal/cache/exact.go:244-256 | puts a node at its head |
| ExactCache.Exact.Drop | internal/cache/exact.go:228-242 | list, maps and size lose the node; an emptied tenant map goes too |
| ExactCache.Exact.Lookup | internal/cache/exact.go:141-162 | miss, expiry and move-to-front as on the list |
| ExactCache.Exact.Evict | internal/cache/exact.go:191-197 | drops from the tail until the bound holds |
| ExactCache.Exact.Insert | internal/cache/exact.go:164-199 | refreshes or adds, then evicts, as on the list |
| ExactCache.Snapshot | internal/cache/exact.go:205-218 | a deep copy that shares no buffer |
| ExactCache.Exact.Get | internal/cache/exact.go:110-120 | refines the list's Get; the answer shares nothing with what is stored |
| ExactCache.Exact.Put | internal/cache/exact.go:122-133 | refines the list's Put on a copy; one event per eviction and one for the store |
| ExactCache.Exact.Len | internal/cache/exact.go:135-139 | the number held, never above the bound |
| SseScanner.SSEScanner.ReadLine | internal/providers/sse.go:120-134 | one line charged against the budget, however the reader splits it |
| SseScanner.SSEScanner.Next | internal/providers/sse.go:76-110 | the event the bytes spell, whatever the read chunking |
| SseSpec.EventConsumes | internal/providers/sse.go:76-110 | every event consumes bytes |
| SseRoundTrip.EventReadsBack | internal/providers/sse.go:76-113 | an event of any lines, LF or CRLF, with a space after the colon or none, is read back: last name, every data line, nothing else |
| SseRoundTrip.CommentIsKeepalive | internal/providers/sse.go:91-94 | a comment where no event has begun is a sign of life |
| SseSpec.CutNext | internal/providers/sse.go:76-134 | what one event of a cut body is, against the whole body's, unless the cut closes it early |
| SseSpec.NeverEarly | internal/providers/sse.go:76-109 | no cut of a body without a line that starts with a CR closes an event early |
| SseSpec.EarlyReads | internal/providers/sse.go:76-109 | what a cut that closes an event early reads: that event, with nothing after it |
| SseSpec.DataEndsClean | internal/providers/sse.go:76-134 | the data of an event never ends in a CR |
| StreamSpec.DeliverIsRecvs | internal/providers/openaiwire/stream.go:55-102 | delivering a body is calling Recv until it ends |
| Translation.DeliversMeaning | internal/providers/anthropic/stream.go:112-248 | on every wire the chunks are what each event means given those before it, no reader needed |
| Translation.UsageReported | internal/providers/anthropic/stream.go:235-248 | usage comes on message_delta alone: the latest input count of a message_start, the latest output count of a message_delta, and their sum |
| Translation.DeltaReports | internal/providers/anthropic/stream.go:235-248 | a message_delta reports it if and only if both counts have been given |
| Translation.HowItEnds | internal/providers/openaiwire/stream.go:113-154 | a stream ends by the first event that ends it, or else by what stopped the reading and what the context was |
| StreamReaders.OpenAIReader.Recv | internal/providers/openaiwire/stream.go:55-154 | each Recv as specified; the terminal error is latched and repeated |
| StreamReaders.GeminiReader.Recv | internal/providers/gemini/stream.go:80-237 | the same for the finish-reason latch |
| StreamReaders.AnthropicReader.Recv | internal/providers/anthropic/stream.go:112-305 | the same for the message_stop latch and its accumulated usage |
| Truncation.CutAnywhere | internal/providers/openaiwire/stream.go:55-154 | on every wire, a body cut before its marker's event is closed, by a cut that closes no event early, never ends complete, ends truncated when it simply stops, and delivers a prefix of the data |
| Truncation.CutPlainAnywhere | internal/providers/openaiwire/stream.go:55-154 | the same for every cut of a body in which no line starts with a CR |
| Truncation.NotBehindCRNeverEarly | internal/providers/sse.go:76-109 | no cut that is not right behind a CR closes an event early |
| Truncation.EarlyDelivers | internal/providers/sse.go:76-109 | a cut that closes an event early delivers what the whole body does up to that event, then what that event brings, and ends as it makes the stream end |
| Truncation.CutEndsComplete | internal/providers/sse.go:76-109 | cut before its marker, a stream ends complete if and only if the cut leaves a last line of CRs alone that closes an event which completes the stream |
| Truncation.EarlyPrefix | internal/providers/sse.go:76-109 | that is a prefix of the whole if and only if what the event closed early brings comes next there too, as it does when only a line end was cut in two |
| Truncation.CRLFExample | internal/providers/sse.go:76-109 | a whole stream on a CRLF wire, one byte short, ends complete |
| Truncation.CompleteByMarkerOnly | internal/providers/anthropic/stream.go:112-305 | a stream ends complete only by its marker |
| Truncation.PrefixUnlessTorn | internal/providers/sse.go:76-134 | keepalives included, a cut that closes no event early delivers a prefix if and only if it is not inside an oversized comment line |
| Truncation.TornExample | internal/providers/sse.go:24-27 | a body and a cut for which it does not |
| RelaySpec.FrameReadsBack | internal/ingress/handlers.go:372-381 | a newline-free payload comes back from its frame if and only if it does not end in CR and fits the event budget |
| RelaySpec.RelayRoundTrip | internal/ingress/handlers.go:246-330 | a client reads back the payloads in order, keepalives only as keepalives, and completion exactly when upstream completed |
| RelayTheorems.MarkerIsLast | internal/ingress/handlers.go:304-317 | the sentinel's event is closed by the very last byte |
| RelayTheorems.CutClientIsNotFooled | internal/ingress/handlers.go:304-330 | a client cut off at any byte reads a prefix and does not take it for whole |
| RelayTheorems.ReplayReadsAsLive | internal/ingress/cached.go:68-99 | a replayed recording reads as the live stream did, less keepalives |
| RelayTheorems.GatewayPassesThrough | internal/ingress/handlers.go:186-330 | upstream bytes to client, for any chunks without a newline that fit a frame: same chunks, and complete exactly when upstream was |
| Relay.WriteSSEFrame | internal/ingress/handlers.go:372-381 | three writes that are one frame, cut where the client stops |
| Relay.FinishStream | internal/ingress/handlers.go:308-330 | the sentinel for completion, the error envelope for anything else |
| Relay.StreamRecorder.Add | internal/ingress/cached.go:110-125 | keeps every frame, or none once they pass the ceiling |
| Relay.StreamRecorder.Entry | internal/ingress/cached.go:129-138 | the whole recording or nothing |
| Relay.ServeStream | internal/ingress/handlers.go:246-302 | bytes written, last usage, completion and recording for every course of events and every client |
| Relay.ReplayStream | internal/ingress/cached.go:90-98 | stored frames, then the sentinel |
| HealthModel.BreakerIsStreak | internal/router/health.go:150-206 | the breaker is closed exactly while fewer than BreakerThreshold health-relevant failures have come since the last success |
| HealthLaws.PausedUntil | internal/router/health.go:265-286 | a provider is paused until the latest end of any pause asked for by a rate limit or a billing failure; no other failure asks for one |
| HealthLaws.ClosedBelowThreshold | internal/router/policy.go:55-70 | only auth, billing, rate-limit, upstream, timeout and internal failures count towards the breaker |
| HealthLaws.OpenedByOne | internal/router/health.go:190-205 | an open breaker was opened by one fault and its cooldown counts from it; reports while it is open never extend it |
| HealthLaws.ProbeIsLastAdmission | internal/router/health.go:245-252 | a half-open breaker's probe is its latest admission |
| HealthLaws.AverageWithin | internal/router/health.go:210-263 | an average from the fifth timing on, never outside what was timed |
| HealthLaws.MovesAFifth | internal/router/health.go:254-263 | each timing moves the average a fifth of the way |
| HealthModel.AvailableFromWakesAt | internal/router/health.go:110-140 | in every reachable state there is an instant from which, and only from which, Available says yes |
| HealthModel.NoWedge | internal/router/health.go:38-44 | that instant is at most the longest of cooldown, stall timeout and requested pauses away from the last event |
| HealthModel.CooldownHolds | internal/router/health.go:178-184 | a running cooldown is never shortened, nor anybody let through before it ends |
| HealthModel.PauseHonoured | internal/router/health.go:269-286 | after a rate limit or billing failure nobody is let through before its wait is over |
| HealthModel.HerdBound | internal/router/health.go:102-140 | with no success since the breaker opened, the first admission waits out the cooldown and later ones are at least the shorter of cooldown and stall timeout apart |
| Health.ProviderHealth.Ask | internal/router/health.go:122-139 | the record's answer and the probe it may claim |
| Health.ProviderHealth.AdmitProbe | internal/router/health.go:245-252 | one half-open slot, reclaimed after the stall timeout |
| Health.ProviderHealth.Fail | internal/router/health.go:178-205 | pause first, then the streak and the breaker |
| Health.Tracker.Available | internal/router/health.go:110-140 | board and answer equal the value-level ones; a zero time means the clock's |
| Health.Tracker.RecordSuccess | internal/router/health.go:150-164 | closes the breaker of this provider and of no other |
| Health.Tracker.RecordFailure | internal/router/health.go:170-206 | folds the failure into this provider's record |
| Health.Tracker.Latency | internal/router/health.go:210-219 | the average once there are five samples |
| SelectorSpec.AvailableIsKeep | internal/router/selector.go:55-65 | the survivors are exactly the providers available when the order was asked for, in chain order |
| SelectorSpec.LeastLatencyOrders | internal/router/selector.go:97-133 | a permutation with the unsampled first and then the faster before the slower |
| SelectorSpec.TiesInChainOrder | internal/router/selector.go:113-126 | the unsampled, and any with equal latency, stay in chain order |
| SelectorSpec.StableIsUnique | internal/router/selector.go:113-126 | only one order is stably sorted |
| SelectorSpec.StableSortSorts | internal/router/selector.go:115-126 | sorting by insertion yields that order |
| RoundRobinSpec.RotatedIsRotation | internal/router/selector.go:144-161 | the loop with its wrapping index is the chain rotated to the counter |
| RoundRobinSpec.PermutationUnlessTorn | internal/router/selector.go:139-161 | the result is a permutation if and only if the counter does not wrap inside the call or the length divides its range |
| RoundRobinSpec.TornExample | internal/router/selector.go:139-141 | three providers at the last counter value: one leads twice, one is left out |
| RoundRobinSpec.Fairness | internal/router/selector.go:144-161 | over n calls with k providers available each leads n/k times, rounded down or up |
| Selector.OrderIsPermutation | internal/router/selector.go:55-161 | every order is the available providers, each once, exactly unless round robin wraps inside the call |
| Selector.PriorityKeepsChain | internal/router/selector.go:67-73 | priority is the chain as configured, without those who may not be tried |
| Selector.FasterFirst | internal/router/selector.go:80-133 | least latency leads with the unmeasured, then the faster |
| Selector.TurnsAreTaken | internal/router/selector.go:135-161 | round robin leads with each in turn, the rest behind in chain order, and spends a turn only if there is somebody to lead |
| Selector.AvailableNow | internal/router/selector.go:55-65 | the loop over a tracker equals asking in turn |
| Selector.ByLatency | internal/router/selector.go:97-133 | latencies read once, then the stable order |
| Selector.ChainSelector.Rotate | internal/router/selector.go:147-161 | a turn is taken only if there is somebody to lead |
| Selector.ChainSelector.Order | internal/router/selector.go:71-161 | board, order and counter after each strategy |
| ChainSpec.AttemptBound | internal/router/orchestrator.go:152-155 | at most MaxAttempts calls for one request |
| ChainSpec.NobodyStarves | internal/router/orchestrator.go:147-191 | while the context lives and no call succeeds or ends in an invalid request or a cancel, each of the first MaxAttempts providers is called |
| ChainSpec.SlackGoesToFirst | internal/router/orchestrator.go:184-196 | when all errors are upstream faults or timeouts and the chain fits, the first gets all the slack and every other exactly one call |
| ChainSpec.NeverGoesBack | internal/router/orchestrator.go:142-198 | providers are called in order and never returned to |
| ChainSpec.DecidedIsLast | internal/router/orchestrator.go:163-187 | nothing follows an answer, an invalid request or a cancel |
| ChainSpec.CallerSeesTheLast | internal/router/orchestrator.go:222-233 | the caller sees the last attempt's answer or error; the router speaks for itself only if nothing was tried or the caller is gone |
| ChainSpec.WalkTold | internal/router/orchestrator.go:124-200 | every call and the result, told from the answers and the context: an invalid request or a cancel ends it, an upstream fault or timeout asks the same provider again while a call is left for each behind it, any other class asks the next |
| ChainSpec.TrackerHears | internal/router/orchestrator.go:163-178 | what the tracker keeps of each provider is the history of its own attempts and of nobody else's |
| Orchestrator.New | internal/router/orchestrator.go:32-63 | refuses an empty chain, a missing tracker or selector and any duplicate name, and nothing else |
| Orchestrator.Router.Call | internal/router/orchestrator.go:160-178 | one attempt noted and reported |
| Orchestrator.Router.TryProvider | internal/router/orchestrator.go:152-197 | the inner loop for one provider |
| Orchestrator.Router.RunChain | internal/router/orchestrator.go:124-200 | result, attempts and tracker after both loops equal the walk's |
| Orchestrator.TimedReader.Recv | internal/router/orchestrator.go:277-284 | success is reported once, at the first chunk of data |
| NamedWaits.CooldownKeepsWait | internal/router/health.go:269-286 | after the loop's report the cooldown covers the wait an upstream named if and only if the class's own guess does or an earlier cooldown already ran that long |
| NamedWaits.HonouredExactlyWhen | docs/architecture.md:274-280 | a named wait is honoured, nobody let through before it is over, if and only if the class's guess, an earlier cooldown or the breaker lasts that long |
| NamedWaits.TenMinutesForgotten | internal/router/orchestrator.go:163-177 | a provider that asks for ten minutes is called again after thirty seconds |
| Similarity.CosineSimilarity | internal/cache/semantic.go:257-286 | the loop computes the cosine |
| Similarity.CauchySchwarz | internal/cache/semantic.go:261-267 | at every step the product squared is at most the product of the magnitudes |
| Similarity.ClampsAreDead | internal/cache/semantic.go:271-285 | before rounding the quotient is in range and neither clamp fires |
| Similarity.SelfSimilarity | internal/cache/semantic.go:245-286 | a vector with a direction has similarity one with itself |
| Similarity.LengthDoesNotMatter | internal/cache/semantic.go:245-286 | scaling a query changes no score |
| SemanticLaws.LawOfCosines | internal/cache/semantic.go:261-267 | the squared length of a difference, which fixes the product the score is made of |
| SemanticLaws.ZeroExactly | internal/cache/semantic.go:248-253 | only the zero vector is without a direction |
| SemanticLaws.ServedIsLive | internal/cache/semantic.go:118-141 | what is served was added by that tenant, less than TTL ago, and is as similar as asked |
| SemanticLaws.LiveIsServed | internal/cache/semantic.go:118-141 | an answer that is live, similar enough and not pushed out by MaxPerTenant later ones is never missed: it or a better one is served |
| SemanticSpec.LazyIsEager | internal/cache/semantic.go:147-202 | the unexpired records held are exactly the unexpired among the last MaxPerTenant accepted |
| SemanticSpec.NearestIsEager | internal/cache/semantic.go:118-141 | Nearest returns the earliest most similar of those, or a miss exactly when none reaches the threshold |
| SemanticSpec.BestIsBest | internal/cache/semantic.go:220-237 | the scan finds the earliest record of maximal score at or above the threshold |
| SemanticSpec.NoDirectionNoHit | internal/cache/semantic.go:248-253 | a zero vector is never served |
| SemanticStore.Store.Add | internal/cache/semantic.go:147-181 | width adoption, pruning, append and bound, and how many were evicted |
| SemanticStore.Store.DropExpired | internal/cache/semantic.go:187-202 | exactly the expired prefix goes |
| SemanticStore.Store.ScanTenant | internal/cache/semantic.go:220-237 | the loop equals the best-record function |
| SemanticStore.Store.Nearest | internal/cache/semantic.go:118-141 | a width that differs, or an empty query, is a miss |
| JsonText.EscapeIsPrefixFree | internal/cache/key.go:134-141 | no character's escape begins another's |
| JsonText.MarshalIsPrefixFree | internal/cache/key.go:134-141 | read from the same text, two values are one |
| JsonText.MarshalIsInjective | internal/cache/key.go:106-112 | equal canonical texts are equal values, number literals and all |
| CacheKey.DecodeIsMeaning | internal/cache/key.go:60-65 | two bodies decode alike exactly when they mean the same, member order and repetition aside, at every depth |
| CacheKey.PreimageIsInjective | internal/cache/key.go:88-96 | equal preimages have equal model and equal canonical body |
| CacheKey.SameKeySameQuestion | internal/cache/key.go:30-96 | equal preimages if and only if equal routed model and equal meaning under every name but the four dropped |
| CacheKey.PruneFields | internal/cache/key.go:130-132 | the four members go, in whatever order, and nothing else |
| CacheKey.Canonicalize | internal/cache/key.go:114-141 | canonical text or the code's error, the re-encoding's among them, in the code's order |
| CacheKey.BuildKey | internal/cache/key.go:82-104 | the key is the hash of the preimage, tenant kept out of it |
| CacheKey.CanonicalOfDecoded | internal/cache/key.go:114-141 | a canonical form decodes to what was kept of the body, and re-encoding never fails |
| CacheKey.SameFormSameFields | internal/cache/key.go:106-112 | equal canonical forms if and only if equal kept members |
| CacheKey.LibraryExists | internal/cache/key.go:114-141 | a decoder and a marshaler that meet the hypothesis exist |
| CacheKey.CanonicalizeTwice | internal/cache/key.go:106-141 | for any library that reads back what it writes, canonicalizing a canonical form changes nothing |
| Clipping.Clip | cmd/plot/svg.go:283-311 | one edge leaves exactly the part of the interval it allows |
| Clipping.SegMeetsBox | cmd/plot/svg.go:283-312 | true if and only if some point of the segment is in the closed box |
| Clipping.SegmentsJoin | cmd/plot/svg.go:272-279 | consecutive points are joined, all of them, each segment beginning where the one before ends |
| Clipping.FirstCrossing | cmd/plot/svg.go:272-279 | the least segment that meets the box, or -1 |

## Left out

- HTTP, SQLite, files, timers, tracing, metrics, configuration and flags: I/O and wiring.
- Error-to-status tables, admin views, the estimator's text counting and provider request or response translation: single-branch facts.
- Floating-point rounding, backoff jitter, the simulator, the studies and plot layout: not decided by state.
- The latency average is computed in exact integers; its rounding in floating point is not modelled.
- Reservation ids and sequence numbers are unbounded naturals; the 64-bit wrap of the enforcer's counters is not modelled (the round-robin counter's is).
- Entries on the pricing side of a lookup (eligibility policy, embedder failures): an entry found or not is an argument of the handler.
- Semantic entries are held by pointer in the original; here an entry is a value, so aliasing of semantic entries is not captured.
- Chunk timestamps, chunk ids and finish-reason text are not modelled; chunks carry what the latches and the relay decide on.
- A reader whose error differs from one read to the next: the error at the end of a body is the same each time it is read.
- LedgerRuns and Requests cover one process; a restart between a settlement and its row loses the row, which no code recovers.
- The data of a multi-line event does not survive the relay, because its newlines are written raw; RelaySpec.RelayRoundTrip is about payloads without a newline.
- HandleChatCompletions: says nothing about the text of error replies.
