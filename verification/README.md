# cliai2api: verified models of the gateway's state machines

cliai2api is an OpenAI-compatible gateway in front of two upstream providers. This project models the parts of
`internal/app` where order, state and failure matter, and proves what they promise for every input, every run and
every interleaving.

| file | what it models |
|---|---|
| `base.dfy`, `rings.dfy` | options and results, Go's string helpers, arithmetic on a ring |
| `sse.dfy`, `sse_laws.dfy`, `sse_lines.dfy` | the Server-Sent Events parser (section 9.2.6 of the WHATWG HTML Living Standard), its round trip, and what any body comes to line by line |
| `events.dfy` | the Command Code event normalizer and the tool-call deduplicator |
| `handler.dfy`, `stream_laws.dfy`, `event_meaning.dfy` | the streaming sink and the single-answer sink, how they relate, and what a client reads in the words of the wire |
| `stream_gateway.dfy`, `stream_bodies.dfy` | parser and sinks together: from the bytes of an upstream body to either response |
| `zen_responses.dfy`, `zen_laws.dfy`, `zen_meaning.dfy` | the aggregator and the incremental emitter for the Responses dialect, when they agree, and what a body comes to in the words of the wire |
| `quota.dfy`, `quota_laws.dfy` | quota refreshes racing account additions, deletions and key changes, and what the cache holds |
| `accounts.dfy` | accounts, cooldowns, the round-robin pool |
| `failover.dfy`, `failover_laws.dfy`, `failover_ends.dfy`, `failover_disabled.dfy`, `failover_coverage.dfy` | the failover loops over the pool: how a request ends and whom it tries |
| `ratelimit.dfy`, `ratelimit_bound.dfy`, `ratelimit_reached.dfy`, `ratelimit_lockout.dfy`, `ratelimit_window.dfy` | the admin login limiter, its timing bound, histories that reach it, when a lockout holds, and what an IP is answered |
| `usage.dfy`, `usage_laws.dfy`, `usage_counts.dfy`, `usage_totals.dfy` | usage counters, the usage file, totals over whole lives with saves and restarts |
| `usage_aliases.dfy`, `usage_reuse.dfy` | key changes: which account a request is charged to |
| `logbuf.dfy` | the log ring |
| `models.dfy`, `models_laws.dfy` | the unified catalog and the model exposure editor |

Each object that changes state is a class whose methods are proved against functions on its abstract value; the laws
are lemmas about those functions. `dafny verify dfyconfig.toml` checks everything.

## How to read the model

- JSON decoding, ID hashing, escape stripping, lower-casing and the upstream's replies are function parameters, so every
  law holds whatever they do. Clock readings are parameters too, as integers in nanoseconds; Go's zero time is `None`.
- The bytes of a body arrive cut at arbitrary places: `Sse.LineReader` takes any schedule of cuts.
- `Handler.Deltas`, `Calls`, `FinalUsage` and `Verdict` read a whole upstream run without running it. Both sinks are
  proved to produce exactly the bodies built from these readings.
- The words, limits and field names of the wire stand written out in the laws of `sse_lines.dfy`, `event_meaning.dfy`,
  `zen_meaning.dfy`, `failover_ends.dfy` and `ratelimit_window.dfy`, apart from the tables and constants the code uses.
- The uint64 cursor of the pool and the int64 product behind a cooldown wrap as in Go.

## Where the code and its promises part

- The comment at zen_responses.go:18-20 promises a fallback to the SSE `event:` field. The aggregator clears the name
  before it uses it, so only the emitter has that fallback (`ZenLaws.AggregatorIgnoresEventName` is a body on which the
  two differ). They are fed the same events exactly when no untyped payload relies on a name
  (`ZenResponses.SameEvents`), and their outcomes agree exactly when such payloads go unnoticed
  (`ZenLaws.OutcomesAgreeExactly`).
- Text after the finish is dropped when streaming and kept when not; `StreamLaws.SinksAgree` gives the exact condition
  under which the two sinks answer alike, `TextAfterFinishIsDropped` a run on which they do not.
- A stream of the emitter ends with neither an error nor `[DONE]` exactly when its body could not be read to the end,
  and a caller is handed such a stream exactly when a chunk went out before that (`ZenLaws.SilentEndExactly`;
  `BrokenBodyEndsSilently` is one).
- With disabled accounts the failover loop can call one account twice and miss another, as
  `FailoverDisabled.OneIsNeverTried` shows. `FailoverCoverage.SureToBeTriedExactly` says, for every pool, which accounts
  a failing request is sure to try whatever the upstream answers and however long it takes; for a pool with nothing
  cooling this comes down to the head of the ring (`HeadDecides`). For one given run that condition is always
  sufficient (`CleanHeadTriesEveryone`), and it is also necessary when no reply starts a cooldown
  (`FailoverDisabled.DisabledAccountsAndCoverage`); when replies of 429 take accounts out of the ring, a run can reach
  everyone without it.
- The total of a usage file is read before the counters are locked. The file holds more account requests than its own
  total exactly when more are credited in between than were pending or short before (`UsageTotals.SnapshotOvershoots`),
  and a process started from such a file is over its total (`RestartCanOvershoot`). Over a life with saves and restarts
  the promise holds exactly when every file started from keeps it (`LifeStaysWithin`).
- A request more than sixteen key changes old is not charged to its account (`UsageAliases.RecorderFindsAccount`;
  `UsageReuse.LateRequestIsMisled` is an account of eighteen keys). If
  keys may come back, the requests of one account are all charged rightly exactly when it never had its present key
  before (`UsageReuse.ReuseIsExact`), and over all accounts together exactly as long as no account takes on a key that
  was changed away from (`UsageReuse.AttributionIsExact`).
- A checked model stays hidden when an unchecked ID is a prefix of it (`ModelsLaws.CheckedCanStayHidden`);
  `ChoiceIsHonoured` and `SavingWhatIsShown` say exactly when the editor's choice holds.
- A lockout need not last its fifteen minutes: a failure of a request that was admitted before it and comes once the
  ten-minute window is over takes it away (`RateLimitLockout.LateFailureUnlocks`). `LockoutHoldsExactly` says when it holds.

## Model

| member | source | states |
|---|---|---|
| Sse.LineReader.ReadSseLine | internal/app/cc.go:323-338 | however the reads are cut, one call yields the next whole line and leaves the rest; a line is refused only when it exceeds the limit |
| Sse.DispatchPending | internal/app/cc.go:393-414 | the pending data lines are delivered once, joined, unless blank; `[DONE]` or a callback error ends the parse |
| Sse.HandleLine | internal/app/cc.go:416-477 | one line acts as the reference step: blank dispatches, data accumulates within the size limit, bare JSON is its own event, fields and comments are skipped |
| Sse.ParseStreamEvents | internal/app/cc.go:387-478 | for every schedule of cuts the parser delivers what the whole byte string says, including a pending event at end of input or before an over-long line; a failing read keeps what came before it |
| SseLaws.RoundTrip | internal/app/cc.go:387-478 | any payloads that fit the limits, of one or several data lines, framed with any ignorable lines and either line ending, are delivered exactly and in order unless blank; nothing behind a `[DONE]` frame is |
| SseLaws.OverlongLineFlushes | internal/app/cc.go:326-428 | before the error of an over-long line the pending event is delivered, and a pending `[DONE]` ends the parse as done instead |
| SseLaws.WrittenParsesBack | internal/app/handler.go:476-483 | frames written by the gateway's own writer parse back to the same payloads whatever bytes follow |
| SseLaws.StreamParsesBack | internal/app/handler.go:145-329 | the body of any streamed run parses back frame by frame and ends as done |
| SseLines.EveryLineIsOne | internal/app/cc.go:416-484 | every line that does not end in a carriage return is ignored, data, blank or bare JSON, by what it begins with |
| SseLines.BodyIsPlayed | internal/app/cc.go:387-478 | for every body made of such lines: data lines gather and are joined by newlines up to 33554432 characters, a blank line hands them over, a bare line hands them over and then itself, trimmed; `[DONE]`, a refusal and a line beyond the limit end it, the rest is ignored |
| SseLines.LastNewlineIsOptional | internal/app/cc.go:464-477 | a body delivers and ends the same with and without its last newline |
| Base.TrimMeaning | internal/app/cc.go:402-405 | trimming takes the longest white space off either end and nothing else |
| Base.SpaceMeaning | internal/app/cc.go:402-405 | the 25 characters that are white space |
| Events.ToolCallFromEvent | internal/app/events.go:311-338 | a call it accepts is valid (checked by the separate validator), authoritative and has an ID |
| Events.AcceptedCalls | internal/app/events.go:288-368 | an event becomes this call if and only if it has an ID (the call's own before the event's), a name and one JSON object for input (the first of input, args and arguments); otherwise the error names the ID |
| Events.DeduperAdd | internal/app/events.go:376-387 | a call is added exactly when no kept one shares its non-empty ID; an authoritative repeat replaces an unknown one in place |
| Events.FirstPerId | internal/app/events.go:374-387 | no ID is lost and none is added |
| Events.FirstPerIdMeaning | internal/app/events.go:374-387 | what is kept are the earliest calls of every ID, all of them, in their order |
| Events.AddAuthoritative | internal/app/events.go:376-387 | for authoritative calls with IDs the deduplicator keeps exactly the first per ID |
| Events.RemoveMeaning | internal/app/events.go:193-201 | on a duplicate-free list the removal takes out that ID and nothing else, keeping the list duplicate-free |
| Events.RemoveFirst | internal/app/events.go:193-201 | the in-place removal loop computes that removal |
| Events.ConsumeKeepsInv | internal/app/events.go:48-140 | after any event the buffer's keys are exactly the IDs of the duplicate-free order list |
| Events.Normalizer.SetUsage | internal/app/events.go:160-181 | the totals of a usage report replace the old ones, a missing total being the sum |
| Events.Normalizer.ConsumeEvent | internal/app/events.go:48-140 | one event moves the whole normalizer state and yields outputs or the error as the reference step does, keeping the buffer invariant |
| Events.Normalizer.BufferToolInput | internal/app/events.go:63-79 | a start replaces and a delta extends the buffered input of its ID; without an ID it is refused |
| Events.Normalizer.TrackToolInput | internal/app/events.go:185-191 | an ID joins the order list once |
| Events.Normalizer.ForgetToolInput | internal/app/events.go:193-201 | an ID leaves buffer and order list together |
| Events.Normalizer.FinishToolInput | internal/app/events.go:203-228 | provisional input is discarded, never turned into a call |
| Events.Normalizer.Commit | internal/app/events.go:97-130 | the first accepted finish releases every kept call and then the finish, once, and empties the buffer |
| Handler.StreamWriter.EmitContent | internal/app/handler.go:165-192 | one chunk per non-empty piece while the run is open, the first with the role |
| Handler.StreamWriter.CollectToolCall | internal/app/handler.go:194-200 | a valid call is collected by first occurrence; an invalid one is refused |
| Handler.StreamWriter.EmitCollectedToolCalls | internal/app/handler.go:202-223 | the collected calls become chunks with indices 0..n-1 in order |
| Handler.StreamWriter.FinishStream | internal/app/handler.go:227-267 | the first finish commits once: calls, finish, usage on request, `[DONE]`; a tool-call finish without calls is an error |
| Handler.StreamWriter.FailStream | internal/app/handler.go:269-280 | an open run gets one error frame and `[DONE]`; a finished one nothing |
| Handler.ConsumeStep | internal/app/events.go:48-140 | before the stop, calls and usage held by the normalizer are those of the events so far |
| Handler.ProgressStep | internal/app/handler.go:282-325 | every event keeps the loop where the whole-run readings say it is |
| Handler.CallbackStep | internal/app/handler.go:282-312 | the error the callback returns at an event, at every point of the run, is the one read off the events so far |
| Handler.HandleStream | internal/app/handler.go:145-329 | the body is exactly the one built from the readings of the run, for every event and error sequence; the recorded usage is the last report that counts |
| Handler.Collector.Handle | internal/app/handler.go:331-395 | one output joins text, reasoning, calls or the finish |
| Handler.HandleNonStream | internal/app/handler.go:331-427 | the answer or the failure is exactly the one read off the run; usage is recorded exactly on success |
| StreamLaws.EveryStreamCloses | internal/app/handler.go:165-325 | every body ends with its only `[DONE]`, has exactly one finish chunk or error frame and at most one role |
| StreamLaws.ReadStream | internal/app/handler.go:194-223 | a client reads the text before the stop and exactly the first valid call per ID before the accepted finish, indexed 0..n-1; a failed run shows no call |
| StreamLaws.FailureShows | internal/app/handler.go:269-280 | the error frame carries exactly the verdict's failure |
| StreamLaws.SinksAgree | internal/app/handler.go:145-427 | a run streamed to completion gives the same text, reasoning, calls, reason and usage unstreamed if and only if it is quiet after its finish |
| StreamLaws.TextAfterFinishIsDropped | internal/app/handler.go:166-358 | a finish followed by a text delta: the text is missing from the stream and present in the single answer |
| StreamLaws.SucceedTogether | internal/app/handler.go:145-427 | with nothing after the first finish one sink succeeds exactly when the other does |
| StreamLaws.StreamIgnoresProvisionalInput | internal/app/events.go:48-140 | deleting every tool-input and tool-error event leaves the streamed body as it was, exactly when no nameless one stopped the run |
| StreamLaws.UsageIgnoresProvisionalInput | internal/app/events.go:160-181 | and the usage, under the same condition |
| StreamLaws.AnswerIgnoresProvisionalInput | internal/app/events.go:48-140 | and the single answer, exactly when the first error is not a missing ID |
| EventMeaning.FinishWords | internal/app/handler.go:525-540 | which words of a finish stand for a stop, tool calls, an output cap or the content filter, and that all others are refused |
| EventMeaning.CutMeaning | internal/app/events.go:48-140 | the run stops at its first event that is a finish, an upstream error, a nameless tool input or a tool call that is none |
| EventMeaning.CallsMeaning | internal/app/events.go:54-62 | the calls of a run, before deduplication, are exactly those of its tool-call events that are one, in order |
| EventMeaning.StreamFinish | internal/app/handler.go:227-260 | a streaming client reads a finish if and only if the run is stopped by a known finish word that does not announce missing calls: `length` for an output cap, else `content_filter` for the filter, else `tool_calls` exactly with calls, else `stop` |
| EventMeaning.AnswerFinish | internal/app/handler.go:386-405 | the single answer's finish, beside the calls it carries, by the same rule |
| EventMeaning.StreamFailure | internal/app/handler.go:269-325 | a streaming client reads a failure if and only if the run does not complete, and then which one |
| EventMeaning.StreamText | internal/app/handler.go:500-505 | text and reasoning before the stop, each event's text field or, when empty, its delta field |
| EventMeaning.AnswerText | internal/app/handler.go:331-427 | the single answer holds all text and reasoning |
| EventMeaning.StreamUsage | internal/app/events.go:160-181 | the token counts a client reads and those recorded, field by field: a missing total is the sum, cache counts only when reported |
| EventMeaning.AnswerUsage | internal/app/events.go:160-181 | the same in the single answer |
| EventMeaning.LastReport | internal/app/events.go:88-95 | before the finish the last finish-step with a report counts |
| EventMeaning.FinalReport | internal/app/events.go:97-112 | the total of a finish with a known word replaces it; without one it stands |
| StreamGateway.RespondStream | internal/app/handler.go:145-329 | for the bytes of any body, however its reads are cut, the response is the body of the events the parser delivers, and is well closed |
| StreamGateway.FramedEventsAreAnswered | internal/app/cc.go:387-478 | events that arrive framed in whatever way, followed by `[DONE]` and anything at all, are answered exactly as the event run itself, also when the callback stops the parse early |
| StreamGateway.RespondOnce | internal/app/handler.go:331-427 | for the bytes of any body, however its reads are cut, the answer or failure is the one of the events the parser delivers |
| StreamGateway.FramedEventsAreAnsweredOnce | internal/app/cc.go:387-478 | framed events followed by `[DONE]` get exactly the single answer of the event run, also when the callback stops the parse early |
| StreamGateway.ResponsesAgree | internal/app/handler.go:145-427 | for the same framed bytes, a response streamed to completion and the single answer are the same if and only if the run is quiet after its finish |
| StreamGateway.BrokenPayloadIsAnswered | internal/app/cc.go:340-414 | a payload that does not decode ends the response as a failed read with the decoder's message, after the events before it |
| StreamGateway.BrokenPayloadIsAnsweredOnce | internal/app/cc.go:340-414 | and the single answer |
| StreamBodies.BodyIsAnswered | internal/app/cc.go:387-478 | the streamed response to every body is that to the events its lines hand over, with the size limits' own messages |
| StreamBodies.BodyIsAnsweredOnce | internal/app/cc.go:387-478 | and the single answer |
| StreamBodies.BareEventsAreAnswered | internal/app/cc.go:445-462 | events sent as bare JSON lines are answered exactly as the event run that ends without `[DONE]` |
| StreamBodies.BareEventsAreAnsweredOnce | internal/app/cc.go:445-462 | and in the single answer |
| ZenResponses.SummaryMeaning | internal/app/zen_responses.go:145-270 | the running variables of the fold are the independent readings of the events fed so far |
| ZenResponses.Aggregator.Apply | internal/app/zen_responses.go:172-227 | one typed event moves the aggregator as the reference fold |
| ZenResponses.ParseZenResponsesEvents | internal/app/zen_responses.go:145-270 | deltas, calls, finish, usage or the error are those of the events the scan feeds |
| ZenResponses.Emitter.Apply | internal/app/zen_responses.go:351-395 | the same for the emitter, plus the chunk it writes at once |
| ZenResponses.Emitter.Conclude | internal/app/zen_responses.go:423-456 | the closing chunks or the error; the caller sees an error only when nothing was written |
| ZenResponses.TranslateZenResponsesStream | internal/app/zen_responses.go:275-466 | every chunk written, the ready signal, and how the stream ends, for readable and unreadable bodies |
| ZenLaws.SilentEndExactly | internal/app/zen_responses.go:422-427 | a stream ends with neither an error nor `[DONE]` if and only if scanning failed, and such a stream is handed out if and only if a chunk went out before |
| ZenLaws.BrokenBodyEndsSilently | internal/app/zen_responses.go:422-427 | one text delta and a broken body: the caller gets the text and a clean end |
| ZenResponses.ReadEmitted | internal/app/zen_responses.go:281-453 | a client of the emitter reads the joined text, calls in order, finish and usage of the events, with `[DONE]` exactly on success |
| ZenResponses.SameEvents | internal/app/zen_responses.go:154-171 | aggregator and emitter are fed the same typed events if and only if no untyped payload relies on an event name |
| ZenResponses.EmitterAgreesWithAggregator | internal/app/zen_responses.go:145-453 | then the chunks read back as the aggregator's result, `[DONE]` is written exactly when it succeeds, and both report the same error |
| ZenLaws.OwnTypesSuffice | internal/app/zen_responses.go:168-171 | on a body whose own payloads carry their types, the outcomes agree |
| ZenLaws.OutcomesAgreeExactly | internal/app/zen_responses.go:145-453 | for every body the outcomes agree if and only if its orphans go unnoticed: on success none adds text, a call or a failure, and one that completes or reports usage last repeats what was said; when the aggregator ends early none ends the response; when it fails, one that fails last repeats the failure |
| ZenLaws.AggregatorIgnoresEventName | internal/app/zen_responses.go:154-171 | a body of four lines on which the emitter forwards a text and the aggregator succeeds without it |
| ZenMeaning.EveryLineSays | internal/app/zen_responses.go:232-249 | every line, white space around it apart, is blank, data, a name or ignored |
| ZenMeaning.FedIsHeard | internal/app/zen_responses.go:230-254 | both folds are fed the payloads on the wire, in order, each under its own type; the emitter when every event has one |
| ZenMeaning.AggregatorMeaning | internal/app/zen_responses.go:145-270 | for every body: the last `response.failed`, else incomplete without `response.completed` or `response.incomplete`, else the text of the delta events, the calls of the function call items, the finish of the last end (calls win, then its word) and the usage of the last that has any |
| ZenMeaning.EmitterMeaning | internal/app/zen_responses.go:275-456 | what a client of the emitter reads, by the same rules, from bodies whose events have types of their own |
| Quota.SlotsStayBounded | internal/app/quota.go:526-540 | no step lets a fifth fetch in |
| Quota.StepKeepsInv | internal/app/quota.go:526-573 | no step publishes a result whose account is gone or re-keyed, including while the lifecycle lock is held |
| Quota.CachedQuotasStayFresh | internal/app/admin.go:457-502 | in every interleaving, whenever the lifecycle lock is free each cached quota is of an account in the pool, fetched with its current key; at most four fetches are in flight |
| Quota.StoresAreCurrent | internal/app/quota.go:541-559 | in every run a publication goes to an account that holds, at that state, the key the fetch was made with |
| Quota.OnlyStoresAndDropsChange | internal/app/quota.go:541-559 | between its publications and drops a cached quota does not change |
| Quota.CachedDataWasFetched | internal/app/quota.go:526-573 | all cached data was answered, earlier in the run, to a fetch for the account of this ID with the very key it is filed with, through any chain of errors that kept it |
| QuotaLaws.StoreStays | internal/app/quota.go:541-573 | until the next store or drop the cache holds exactly the stored payload with the key it was fetched with and no error, or the new error beside the data from before |
| QuotaLaws.DataIsLatest | internal/app/quota.go:526-573 | in every run data is cached for an ID if and only if some was stored since its last drop, and then it is the latest |
| QuotaLaws.BlankIsNeverCached | internal/app/usage.go:304-314 | nothing is cached under a blank ID |
| QuotaLaws.RefreshIsCached | internal/app/quota.go:526-559 | a refresh that finds one of the four slots and the lock free runs to its end and leaves its answer in the cache, its account still holding the key; nothing else changes |
| QuotaLaws.StaleRefreshIsDiscarded | internal/app/quota.go:541-548 | a fetched result is stored if and only if the first account with its ID still holds the key |
| QuotaLaws.PoolStep | internal/app/admin.go:424-512 | with unique IDs every step keeps them unique and changes exactly the accounts it is about |
| QuotaLaws.DropForgets | internal/app/admin.go:424-512 | a deleted or re-keyed ID loses its quota and no other ID does |
| QuotaLaws.ChangesDrop | internal/app/admin.go:457-512 | a deletion or key change, and nothing else, has a quota dropped before the lock is released |
| QuotaLaws.StepsAreAccepted | internal/app/quota.go:526-559 | exactly which steps can be taken in a state: at most four fetches at once, pool changes only with the lock free, on a known account and to a key whose ID nobody else has, additions without the lock |
| Accounts.Account.RecordSuccess | internal/app/accounts.go:81-89 | success clears the error time and the authentication failures and touches nothing else |
| Accounts.Account.RecordFailure | internal/app/accounts.go:91-113 | failures count; only a 429 starts a cooldown and only a 401 or 403 counts against the key |
| Accounts.PickMissesOnlyWhenNoneEligible | internal/app/accounts.go:197-215 | no account is handed out if and only if none is enabled and out of cooldown |
| Accounts.AccountPool.Acquire | internal/app/accounts.go:197-215 | hands out the first eligible account on the ring from the cursor, which moves by one modulo 2^64 |
| Accounts.AccountPool.FirstEligible | internal/app/accounts.go:203-214 | the search loop finds the first eligible account from its start |
| Accounts.AccountPool.EnabledCount | internal/app/accounts.go:231-241 | the number of enabled accounts |
| Accounts.AccountPool.EarliestRateLimitWait | internal/app/accounts.go:372-391 | the loop computes the least remaining cooldown |
| Accounts.WaitIsExact | internal/app/accounts.go:372-391 | with an enabled account but none eligible, Acquire fails at every time before the reported wait ends and succeeds when it does |
| Accounts.RotationIsFair | internal/app/accounts.go:197-215 | while all n accounts are eligible at each call, whatever else changes about them, k times n calls from any cursor hand out each exactly k times |
| Accounts.AccountPool.Add | internal/app/accounts.go:272-288 | appends one fresh account unless the key is blank or its ID known; distinct IDs stay distinct, as under every pool change below |
| Accounts.AccountPool.Remove | internal/app/accounts.go:290-300 | takes out exactly the first account with the ID |
| Accounts.AccountPool.SetEnabled | internal/app/accounts.go:302-314 | replaces the account by a fresh copy differing only in the flag; holders of the old one keep it |
| Accounts.AccountPool.SetKey | internal/app/accounts.go:333-367 | the same for key and ID, refused exactly for a blank key, an unknown account or an ID another account holds |
| Failover.TryOnce | internal/app/cc.go:210-236 | one attempt: acquire, call, record on that account only |
| Failover.RunAttempts | internal/app/cc.go:206-240 | the loop makes the reference run's calls and leaves its account states and cursor |
| Failover.SendThroughPool | internal/app/cc.go:195-256 | a request over the pool is the reference run; the account returned made the last call |
| FailoverLaws.SendIsOrderly | internal/app/cc.go:206-256 | at most one call per enabled account; no call after a success or a request-scoped error; the end is the last call's answer |
| FailoverEnds.AnswersDecide | internal/app/cc.go:206-278 | in any pool with an enabled account every reply but the last is of a class another account may answer better, with the classes of both gateways written out, and the last decides the end |
| FailoverEnds.RepliesDecide | internal/app/cc.go:206-278 | all enabled and none cooling: served if and only if the first reply outside that class is a success, refused with that reply otherwise, and exhausted with the last account's error when there is none |
| FailoverEnds.RecordMeaning | internal/app/zen.go:179-229 | what a reply leaves on the account under either gateway, field by field; only 429 starts a cooldown |
| FailoverEnds.CooldownMeaning | internal/app/accounts.go:91-113 | as many seconds as Retry-After says when positive, in int64 arithmetic, else a minute |
| FailoverLaws.NearAccountsAreTried | internal/app/zen.go:179-229 | a request that ends with a failover error has tried every enabled account not cooling at its start that stands closer to the cursor than there are enabled accounts |
| FailoverLaws.FailoverTriesEveryone | internal/app/zen.go:179-229 | with all accounts enabled, that is every account not cooling at its start |
| FailoverLaws.FailoverGoesAround | internal/app/zen.go:321-383 | when none was cooling, the calls go once around the ring in order, each account exactly once |
| FailoverCoverage.SureToBeTriedExactly | internal/app/cc.go:206-240 | an account eligible now is tried by every failing request, for all replies and clocks, if and only if only disabled accounts stand between it and where the last attempt starts, or it comes first |
| FailoverCoverage.CleanHeadTriesEveryone | internal/app/accounts.go:197-215 | with the first k-1 ring positions enabled, k being the number enabled, a failing request tries every enabled account not cooling at its start, 429 replies and cooling accounts included |
| FailoverCoverage.HeadDecides | internal/app/accounts.go:206-213 | with nothing cooling, all enabled accounts are sure to be tried if and only if the first k-1 ring positions are enabled |
| FailoverDisabled.DisabledAccountsAndCoverage | internal/app/accounts.go:206-213 | in a single run whose failures cool nothing, all enabled accounts are tried if and only if the first k-1 ring positions from the cursor are enabled |
| FailoverDisabled.OneIsNeverTried | internal/app/accounts.go:206-213 | the pool off, on, on with the cursor at the first: one enabled account is never tried |
| RateLimit.IpRateLimiter.PruneLocked | internal/app/ratelimit.go:100-113 | exactly the expired records go, and only when a sweep is due |
| RateLimit.IpRateLimiter.EvictOldestLocked | internal/app/ratelimit.go:124-135 | at most one record goes; with no blank IP it is one with the oldest window |
| RateLimit.IpRateLimiter.Allow | internal/app/ratelimit.go:40-61 | the answer, the remaining lockout and the whole new state |
| RateLimit.IpRateLimiter.Fail | internal/app/ratelimit.go:64-82 | the whole new state, with an eviction only for a new IP in a full map |
| RateLimit.IpRateLimiter.Reset | internal/app/ratelimit.go:85-89 | only this IP's record goes |
| RateLimit.PruningIsUnobservable | internal/app/ratelimit.go:40-120 | an IP that is never evicted gets, in every timed history of calls by any IPs, the answers of a limiter without pruning, down to the end of each lockout |
| RateLimit.MapStaysBounded | internal/app/ratelimit.go:64-135 | with non-blank IPs no history grows the map beyond 1024 records |
| RateLimitBound.FailuresAreBounded | internal/app/server.go:89-119 | an IP with at most c requests between Allow and Fail at once, none of which succeeds, gets at most 2c + 6 failed attempts into any closed ten-minute interval (eight for c = 1), whatever the other IPs do |
| RateLimitReached.BoundIsReached | internal/app/ratelimit.go:10-82 | for every c a history in which 2c + 6 are admitted |
| RateLimitReached.EightAreReached | internal/app/ratelimit.go:10-17 | one with eight, one request after the other |
| RateLimitLockout.LockoutHoldsExactly | internal/app/ratelimit.go:40-89 | a lockout turns the IP away to its end, through any calls by any IPs, if and only if none of them resets or evicts its record or is a failure past the window |
| RateLimitLockout.LateFailureUnlocks | internal/app/ratelimit.go:64-82 | a failure eleven minutes into a lockout that lets the IP in again at once |
| RateLimitWindow.AnswersAreFromFailures | internal/app/ratelimit.go:10-89 | an IP that is never evicted is answered, in every timed history, as its own failures say: five in one list lock for fifteen minutes from the last, and a list is over ten minutes after its first |
| RateLimitWindow.SweepMeaning | internal/app/ratelimit.go:100-120 | a sweep takes exactly the records that are over, when ten minutes have passed or 1024 records are held |
| RateLimitWindow.EvictionMeaning | internal/app/ratelimit.go:64-82 | only the failure of a new IP evicts, and only with 1024 records left after the sweep |
| Usage.UsageTracker.MoveAccountFor | internal/app/usage.go:345-376 | an alias is set and the counter moved or merged under the new key |
| Usage.UsageTracker.DropAccountFor | internal/app/usage.go:283-293 | the counter goes, and the quota for the cmdcode gateway only |
| Usage.UsageTracker.Load | internal/app/usage.go:447-493 | the loaded counters are the sums per namespaced key, whatever the order of the file's entries; an unreadable file loads as empty |
| Usage.UsageTracker.Snapshot | internal/app/usage.go:385-408 | the saved totals and counters are the tracker's |
| Usage.MirrorRecorder.Record | internal/app/usage.go:161-181 | total, the account's present counter and the client key's counter each grow by the request |
| UsageLaws.KeyForIsIdempotent | internal/app/usage.go:240-257 | namespacing twice is namespacing once, for every ID and second gateway, if and only if the gateway's name is plain, as all known ones are |
| UsageLaws.KeysSeparate | internal/app/usage.go:78-89 | two accounts share a counter only with the same ID in the same gateway |
| UsageCounts.KeyForMeaning | internal/app/usage.go:240-257 | an ID that names its gateway is its own key, `opencode:` becoming `zen:`; any other is filed under its gateway, blank meaning cmdcode and opencode meaning zen |
| UsageCounts.TotalCounts | internal/app/usage.go:45-55 | over any turns the total grows, field by field, by exactly the requests, negative cache counts being worth nothing |
| UsageCounts.ClientCounts | internal/app/usage.go:161-181 | a client's counter grows by exactly its own requests, whatever happens to the accounts |
| UsageLaws.MoveConserves | internal/app/usage.go:345-376 | a key change conserves the sum of all counters, merge or not |
| UsageTotals.StepConserves | internal/app/usage.go:161-181 | what each step changes in the difference between total and account requests |
| UsageTotals.ShortfallNeverShrinks | internal/app/usage.go:161-181 | within a process, from any state, the account requests never gain on the total |
| UsageTotals.WithinForGood | internal/app/usage.go:161-181 | they stay within the total in every state a process can reach, also between the halves of a record, if and only if they and the pending requests fit into it now |
| UsageTotals.LifeStaysWithin | internal/app/usage.go:385-509 | over a life with any saves and restarts they stay within the total if and only if every file started from is within its own |
| UsageTotals.RestartCanOvershoot | internal/app/usage.go:385-509 | a life of five steps in which they do not |
| UsageTotals.SnapshotOvershoots | internal/app/usage.go:385-408 | a snapshot exceeds its total if and only if more requests are credited between its two reads than were pending or short before them or deleted since |
| UsageTotals.SnapshotOvershoot | internal/app/usage.go:385-408 | by no more than the requests that arrive in between |
| UsageTotals.SnapshotCanOvershoot | internal/app/usage.go:385-408 | and it does with a single one |
| UsageLaws.LoadConserves | internal/app/usage.go:447-493 | loading conserves total and sum and leaves only keys in final form |
| UsageTotals.KeysStaySettled | internal/app/usage.go:240-257 | every run over namespaced keys keeps all counter keys in final form |
| UsageLaws.LoadAfterSave | internal/app/usage.go:447-509 | loading what was saved restores totals, counters and quotas |
| UsageAliases.RecorderFindsAccount | internal/app/usage.go:161-177 | a recorder finds its account's present key if and only if at most sixteen key changes came after it |
| UsageAliases.RecorderMissesOthers | internal/app/usage.go:161-177 | it never lands on another account's key |
| UsageAliases.StepKeepsInv | internal/app/usage.go:345-376 | additions, key changes to fresh keys, deletions and requests keep the aliases a set of disjoint chains |
| UsageAliases.CounterFollowsAccount | internal/app/usage.go:161-376 | over any interleaving on all accounts and gateways a surviving account's counter grows by exactly its own requests, whichever of its keys they began under |
| UsageReuse.ReuseIsExact | internal/app/usage.go:161-177 | for every sequence of key changes of an account, with keys coming back, all its requests at most sixteen changes old are charged to the present key if and only if it never had that key before |
| UsageReuse.LateRequestIsMisled | internal/app/usage.go:161-177 | a request under the first of eighteen keys is charged to the seventeenth |
| UsageReuse.ReusedKeyMisleads | internal/app/usage.go:345-376 | there and back again misleads, one further change to a new key makes it right |
| UsageReuse.SpentKeyMisleads | internal/app/usage.go:345-376 | an account that takes on a key some account once changed away from has a request charged wrongly at once |
| UsageReuse.StartIsTidy | internal/app/usage.go:447-493 | the state after start-up, with no alias yet and no key held twice, is one the next result starts from |
| UsageReuse.AttributionIsExact | internal/app/usage.go:161-376 | over any interleaving on all accounts and gateways, requests are charged rightly in every state if and only if no account ever takes on such a key |
| LogBuf.LogRing.Write | internal/app/logbuf.go:33-49 | the ring stands for the list of all non-blank lines, extended by this one with the next number |
| LogBuf.TrimNewlinesMeaning | internal/app/logbuf.go:33-38 | only newlines at the end go, and all of them |
| LogBuf.LogRing.After | internal/app/logbuf.go:53-66 | exactly the kept lines above the number, oldest first, and the latest number |
| LogBuf.SinceMeaning | internal/app/logbuf.go:53-66 | these are exactly the lines with a greater number among the last ones the ring keeps |
| LogBuf.PollerSeesAll | internal/app/logbuf.go:53-66 | a poller that passes back the last number sees every line once and in order if and only if at most a capacity's worth is written between its polls |
| Models.ModelCatalogs.SetGatewayCatalog | internal/app/models.go:26-48 | one gateway's models change and the unified catalog is again both buckets, prefixed, in fixed order |
| ModelsLaws.UnifiedHasGateways | internal/app/models.go:39-48 | every ID of the unified catalog begins with a gateway's prefix, which the exposure laws build on |
| Models.IsModelExcluded | internal/app/models.go:142-165 | true exactly when some trimmed non-blank entry begins the ID or what follows its last slash |
| ModelsLaws.HidesMeaning | internal/app/models.go:142-165 | an entry hides a model if and only if, trimmed and not blank, it begins the ID or what follows the ID's last slash |
| ModelsLaws.UnifiedMeaning | internal/app/models.go:39-48 | the unified catalog lists the cmdcode models and then the opencode models, each with its prefix and otherwise unchanged |
| Models.UpdateExposure | internal/app/admin.go:624-654 | the stored list is the unchecked catalog IDs in order, then the old entries about models outside the catalog |
| ModelsLaws.UpdateHides | internal/app/admin.go:624-654 | after an update a catalog model is hidden if and only if an unchecked catalog ID, trimmed, begins it |
| ModelsLaws.ChoiceIsHonoured | internal/app/admin.go:611-654 | exposed is exactly checked, for the whole catalog, if and only if no unchecked ID begins a checked one |
| ModelsLaws.CheckedCanStayHidden | internal/app/admin.go:624-654 | with `cmdcode/a` unchecked, the checked `cmdcode/ab` stays hidden |
| ModelsLaws.KeptHideNothing | internal/app/admin.go:636-652 | an old entry is kept if and only if it is no catalog ID and hides no catalog model |
| ModelsLaws.UnifiedUpdateHides | internal/app/models.go:39-48 | for the catalog the gateway serves, whatever its buckets: a model is hidden after an update if and only if an unchecked ID, trimmed, begins it |
| ModelsLaws.UnifiedChoiceIsHonoured | internal/app/models.go:39-48 | for that catalog, exposed is exactly checked if and only if no unchecked ID begins a checked one |
| ModelsLaws.UpdateIsIdempotent | internal/app/admin.go:624-654 | saving the same choice again changes nothing |
| ModelsLaws.SavingWhatIsShown | internal/app/admin.go:599-654 | saving exactly what the editor showed changes no exposure if and only if no hidden ID begins a shown one |

## Left out

- HTTP servers, routing, headers, CORS, the WebUI, OAuth, configuration files and the YAML and JSON codecs: I/O around the state machines.
- Request translation (`openAIToCC`, `messagesToCC`), model-name resolution, free-tier tool injection and stream collapse, quota payload parsing, token clamps: pure and easy, no state.
- `decodeSSEEvent`: payloads stay texts in `sse.dfy` and become decoded events in `events.dfy`; the decoder between them is a parameter.
- Failing writes to a client: every write succeeds.
- ZenResponses.TranslateZenResponsesStream: the emitter's early return when the pipe's reader is gone is not part of it.
- Sse.ParseStreamEvents: on a failing read the contract allows the pending event to have been delivered or not, because whether the reader reports the fault with the last bytes or after them is the transport's choice.
- Handler.HandleStream: chunk IDs, timestamps and the model name are not in the frames; error codes and messages are the constructors of `Failure` and `Error`.
- The anonymous lanes of zen.go and the rounding of the synthesized Retry-After header: the wait itself is exact, its rounding to nearest seconds may report it early.
- Failover.SendThroughPool: one request at a time on the pool; the upstream is any function of attempt number and key, and what becomes of a served response (collapse, translation) is not part of it.
- FailoverLaws.FailoverTriesEveryone: stated below the wrap of the uint64 cursor, as are the other coverage results.
- FailoverDisabled.DisabledAccountsAndCoverage: for a single run without 429 replies and cooling accounts; every pool, reply and clock is the subject of `FailoverCoverage.SureToBeTriedExactly`.
- Events.ToolCallFromEvent: which events it accepts is stated by `Events.AcceptedCalls`.
- Events.FirstPerId: which call of an ID it keeps, and the order, are stated by `Events.FirstPerIdMeaning`.
- Accounts.RotationIsFair: stated below that wrap too; at it the ring position jumps unless n divides 2^64.
- Quota.CachedQuotasStayFresh: the refresh service is modelled on values, as steps over a shared state, since its point is interleaving; wait groups, the periodic timer and persistence are not part of it.
- RateLimit.IpRateLimiter.Fail: the records are map values, not shared pointers; nothing outside the lock ever holds one.
- Usage.UsageTracker.Snapshot: totals and counters are read in one step there; the gap between the two reads is `UsageTotals.SnapshotOvershoots`. Counters are unbounded integers, not int64.
- UsageTotals.LifeStaysWithin: for files whose counters are not negative, which are the only ones the program writes.
- UsageReuse.AttributionIsExact: a key change to the key the account already has is no change and is left out.
- Usage.MirrorRecorder.Record: the lookup of a client-key counter and the addition to it are one step.
- LogBuf.LogRing.Write: removal of terminal escapes is a function parameter.
- Strings are sequences of characters; sizes count characters where Go counts bytes, and invalid UTF-8 is not modelled.
