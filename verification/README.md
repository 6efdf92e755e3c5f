# Verified model of the gollmproxy request path

The proxy admits chat requests under a per-key concurrency limit, checks a daily token
budget, forwards the request, removes reasoning text from streamed answers, and rewrites
event streams line by line. It also builds its database connection string from the
environment and locks out clients that guess keys. This project models those six pieces
and proves what they keep over every run, every interleaving and every input.

| files | piece |
|---|---|
| AdmissionSpec, AdmissionController | The admission controller: each locked section as a function of the table, and the class over a mutable map and array-backed queues, proved to compute those functions. |
| AdmissionMachine, AdmissionTheorems | All interleavings of acquires, wake-ups, withdrawals and releases; conservation, FIFO, drain. |
| Reasoning, ReasoningStripping, ReasoningGrammar | The incremental tag remover: specification, class, grammar. |
| BedrockSpec, BedrockStream, BedrockFrames | The Bedrock stream handler on parsed JSON, its loops, and which frames and usage a stream yields. |
| BudgetStore, BudgetCache, BudgetReads | The budget store, its cache under concurrent lookups, and when their results go back in time. |
| BudgetBound, BudgetTight | Admission, budget check, usage update and release together; the overshoot bound, and that it is reached. |
| AppSettings | The settings store, whose one lock makes reads monotone. |
| EventStream, SseProxy, SseExact | Event stream interpretation (section 9.2.6 of the WHATWG HTML Living Standard), the line loop, and what it does to events. |
| ConnString | The connection string printer, and a reader after section 34.1.1.1 of the PostgreSQL 16 documentation. |
| AuthSpec, AuthMiddleware, AuthMachine, AuthOverlap | The lockout table: critical sections, the class with its sweeper, all interleavings, and runs that reach the bounds. |
| GoStrings, Sequences | Trimming and searching as Go's `strings` package does them; small facts about sequences. |

A machine's `Apply` takes one step, and a step that is not enabled changes nothing, so
every list of steps is a run. Each locked section is one step; a clock reading taken
outside a lock is a step of its own. The methods of the classes are proved to compute
the very functions that the machines take as steps.

Some statements that one might expect are false of the code. Each has an input that
shows it and, beside it, exactly when the statement holds, or the bound that does hold
and is reached:

- Stripping is not idempotent: `StrippedTextMayHoldATag`, `IdempotentIff`.
- The Bedrock handler never flushes: `TrailingTextIsLost`, `StreamCompleteIff`.
- The line proxy can change events: `TwoDataLinesBecomeTwoEvents`,
  `UnfinishedEventIsDispatched`, `MarkerInsideAnEventCutsTheStream`, `MeaningPreservedIff`.
- The comment at config.go:609-610 says which values must be quoted, but other whitespace
  needs quotes as well: `TabSplitsAValue`, `ConnectionStringReadsBackIff`.
- Budget lookups can go back in time: `LookupsMayGoBack`, `MonotoneIff`.
- The combined concurrency key does not always tell rows apart: `AppModelKeysMayCollide`,
  `AppModelKeysCollideIff`.
- Failure counts can pass ten when requests overlap, and a request that is held up after
  reading the clock allows one failure more: `CountIsBounded` and `GuessesAlone` give the
  bounds, `CountBoundIsReached` and `BoundAloneIsReached` reach them.

## Model

| member | source | states |
|---|---|---|
| AdmissionTheorems.SlotConservation | keyed_concurrency.go:87-210 | In every reachable state of every interleaving a key's `inflight` is the number of calls that hold a slot (live handles, and calls given one that have not returned), at most the limit; `waiting` is the queue's length, at most its limit; waiters exist only at the limit; a key is stored exactly while a slot is held. |
| AdmissionMachine.StepInv | keyed_concurrency.go:87-210 | Each step of acquire, wake-up, withdrawal, return and release keeps the invariant: table, queues, closed channels and slot owners agree. |
| AdmissionTheorems.OneGrantPerWaiter | keyed_concurrency.go:118-120 | A waiter's channel is closed at most once, never while queued, and is in at most one queue. |
| AdmissionTheorems.LostRaceKeepsSlot | keyed_concurrency.go:138-157 | A timeout or cancel that finds the waiter already granted changes no table entry and the call goes on holding its slot. |
| AdmissionTheorems.WonRaceGivesUpPlace | keyed_concurrency.go:138-155 | A timeout or cancel that comes first leaves the queue with the right error and no slot changes hands. |
| AdmissionTheorems.BeginDecides | keyed_concurrency.go:87-121 | A starting call is refused for an empty trimmed key, has a slot at once exactly while fewer calls hold one than the limit, waits at the limit while the queue has room, and is rejected otherwise. |
| AdmissionTheorems.GrantedReturns | keyed_concurrency.go:133-157 | A waiter that was granted its slot ends with a live handle, woken or not. |
| AdmissionTheorems.UntimedNeverTimesOut | keyed_concurrency.go:126-131 | In every run a call begun without a positive `maxWait` never times out. |
| AdmissionTheorems.WithdrawalSucceeds | keyed_concurrency.go:126-158 | In every run a waiter not yet granted can be canceled, and can time out exactly when it was begun with a positive `maxWait`, each with its own error. |
| AdmissionTheorems.HandleFreesOnce | keyed_concurrency.go:43-50 | In every run, from every state, at most one step releases a slot through a given handle, however often and whenever `Release` is called on it. |
| AdmissionTheorems.Drains | keyed_concurrency.go:207-209 | When every acquire has returned and every handle is released, the map is empty. |
| AdmissionTheorems.QueueEffect | keyed_concurrency.go:105-205 | A step only ever adds a newcomer at the back of a queue, removes the withdrawing call, or, by a release, removes the head. |
| AdmissionTheorems.StepRank | keyed_concurrency.go:161-210 | A waiter's rank never rises and drops with every release of its key; it leaves the queue only by its own withdrawal or by a grant at rank zero. |
| AdmissionTheorems.GrantedWithinRank | keyed_concurrency.go:197-205 | A waiter with p others ahead that does not withdraw is granted within p + 1 releases on its key, whatever else happens. |
| AdmissionTheorems.NewcomerGoesBehind | keyed_concurrency.go:105-121 | A call that starts while another waits for the key is rejected or queued at the very back; it never takes a slot at once. |
| AdmissionTheorems.NoOvertaking | keyed_concurrency.go:105-205 | As long as a call waits, no later or further-back call holds a slot of its key. |
| AdmissionSpec.DefensiveBranchesUnreachable | keyed_concurrency.go:170-209 | For a key that is present in a well-formed table the positivity guards always hold, a withdrawal never empties a key, removal succeeds exactly for a queued waiter, and both keep the table well formed. |
| AdmissionTheorems.KeyIsPresent | keyed_concurrency.go:165-191 | In every reachable state the key of a call that may yet withdraw or release is present, so neither function takes its exit for a missing state. |
| AdmissionSpec.EnterKeepsTable | keyed_concurrency.go:95-121 | Entering keeps the table well formed; a slot is given at once only when nobody waits; a full queue changes nothing. |
| AdmissionController.KeyedState.Append | keyed_concurrency.go:120 | Appending, in place or into a larger array, adds the waiter at the back of the sequence. |
| AdmissionController.KeyedState.TakeFirst | keyed_concurrency.go:198-199 | Re-slicing the front takes the head off the sequence. |
| AdmissionController.KeyedState.ShiftDown | keyed_concurrency.go:174 | The in-place shift leaves the sequence without the element at that position. |
| AdmissionController.KeyedState.Delete | keyed_concurrency.go:174 | Removal in the middle removes that waiter and keeps the others' order. |
| AdmissionController.KeyedState.Find | keyed_concurrency.go:170-173 | The loop finds the waiter's first position, or the length when it is not queued. |
| AdmissionController.KeyedState.PassSlot | keyed_concurrency.go:193-205 | A release gives the slot to the head of the queue, if any, and closes its channel, which was open. |
| AdmissionController.KeyedConcurrencyController.New | keyed_concurrency.go:65-77 | A controller is made exactly for a positive limit and a non-negative queue, and starts empty. |
| AdmissionController.KeyedConcurrencyController.Enter | keyed_concurrency.go:87-121 | Over the mutable map the first section does what the machine's step does, reports the counters as they were, and refuses exactly the empty trimmed key. |
| AdmissionController.KeyedConcurrencyController.RemoveWaiter | keyed_concurrency.go:161-182 | Over the mutable map a removal does what the machine's step does. |
| AdmissionController.KeyedConcurrencyController.Release | keyed_concurrency.go:184-210 | Over the mutable map a release does what the machine's step does, and the granted channel is open before and closed after. |
| AdmissionController.AdmissionHandle.Release | keyed_concurrency.go:43-50 | Only the first call on a handle with a key releases a slot. |
| BudgetStore.RowDeterminesSlot | keyed_concurrency.go:225-251 | In every scope, requests charged to one budget row compete for one slot key. |
| BudgetStore.EachScopeAsksForItsNames | keyed_concurrency.go:225-251 | Each scope needs the names it uses and no other, and a budget row needs both. |
| BudgetStore.AppModelKeysCollideIff | keyed_concurrency.go:249 | Two different rows share the combined key if and only if one comes from the other by moving a colon from the application's name to the model's. |
| BudgetStore.AppModelKeysTellRowsApart | keyed_concurrency.go:249 | The combined key tells rows apart when neither application name has a colon. |
| BudgetStore.AppModelKeysMayCollide | keyed_concurrency.go:249 | Two rows that do share a key. |
| Reasoning.ScanSplit | reasoning.go:28-69 | Filtering a text in two pieces, at any place and in any state, gives the output and the state of filtering it whole. |
| Reasoning.ChunkIndependence | reasoning.go:28-69 | The same for any number of pieces. |
| Reasoning.StreamedIsStripped | reasoning.go:71-86 | Streamed output and the final flush together are `stripReasoning` of the whole text. |
| Reasoning.PendingIsLongest | reasoning.go:28-69 | What is pending is the longest proper beginning of the awaited tag that ends the unread text, which holds no such tag. |
| Reasoning.OutputIsPrefix | reasoning.go:28-79 | The output so far begins the stripped text of every continuation; what is held back has at most ten characters and is what `Flush` would emit. |
| Reasoning.OutputIsLongestSafe | reasoning.go:28-69 | No longer output would be safe: any text that begins the result of every continuation begins the output so far. |
| ReasoningGrammar.ParseIsUnique | reasoning.go:14-17 | A text has exactly one decomposition into visible segments without a start tag and hidden segments without an end tag. |
| ReasoningGrammar.Parse | reasoning.go:28-69 | Every text has such a decomposition. |
| ReasoningGrammar.StripsToVisible | reasoning.go:28-86 | Stripping a decomposed text gives its visible segments, and holds back exactly the longest beginning of a start tag that ends a visible last one. |
| ReasoningGrammar.StripIsGrammatical | reasoning.go:81-86 | `stripReasoning` returns the visible segments of whatever decomposition of the text. |
| ReasoningGrammar.OneBlockIsCutOut | reasoning.go:14-17 | One block between two visible texts is cut out, with the tags written out. |
| ReasoningGrammar.UnchangedIffUntagged | reasoning.go:81-86 | A text passes unchanged if and only if it has no start tag. |
| ReasoningGrammar.StrippedTextMayHoldATag | reasoning.go:81-86 | A start tag cut in two anywhere by a block comes out whole, so that stripping again changes the result. |
| ReasoningGrammar.VisibleHasTagIff | reasoning.go:81-86 | The visible segments of a decomposition join into a start tag if and only if one of them, before a block, ends in a proper beginning of the tag that the segments behind that block go on to spell. |
| ReasoningGrammar.IdempotentIff | reasoning.go:81-86 | Stripping twice is stripping once if and only if no visible segment does that. |
| ReasoningGrammar.IdempotentWhenEndsAreClean | reasoning.go:81-86 | It is enough that no visible segment before a block ends in a beginning of the tag. |
| ReasoningGrammar.NothingHeldBackIff | reasoning.go:28-79 | Output without a flush is complete if and only if the text does not end, visibly, in a beginning of a start tag. |
| ReasoningStripping.LongestSuffixPrefix | reasoning.go:256-267 | The loop returns the longest proper beginning of the tag that ends the value. |
| ReasoningStripping.ReasoningStripper.FilterChunk | reasoning.go:28-69 | The loop over the mutable fields computes the scan of pending text and chunk, and terminates. |
| ReasoningStripping.ReasoningStripper.Flush | reasoning.go:71-79 | Pending text is returned only outside a block, and is gone afterwards. |
| ReasoningStripping.StripReasoning | reasoning.go:81-86 | One chunk and a flush compute the stripped text. |
| BedrockSpec.ChunkConserves | reasoning.go:97-163 | A rewritten chunk keeps all fields but the metrics, and in each choice all but the content; its text is the filtered text; a skipped chunk shows none. |
| BedrockSpec.UsageChunkShowsNothing | reasoning.go:182-212 | The closing usage chunk carries the totals and no text. |
| BedrockSpec.StreamConservation | bedrock.go:134-187 | Over any events, in order, the text of the frames sent is what the stripper puts out for the text of all events: it begins the stripped text and lacks at most ten characters; with reasoning included it is the text itself. |
| BedrockSpec.StreamCompleteIff | bedrock.go:142-183 | What is sent is complete if and only if the text does not end, visibly, in a beginning of a start tag. |
| BedrockSpec.TrailingTextIsLost | bedrock.go:142-183 | A stream whose only text is a single bracket is sent without it. |
| BedrockStream.RewriteJSONContentMap | reasoning.go:137-163 | The loop over choices rewrites each content in order through one filter. |
| BedrockStream.StreamChunkHasNoVisiblePayload | reasoning.go:214-241 | True if and only if no choice has a finish reason, a delta that is no object, a role or content. |
| BedrockStream.SanitizeBedrockStreamChunk | reasoning.go:97-120 | Unparsed chunks pass as they are; others lose the metrics, are filtered, and are skipped exactly when nothing is visible. |
| BedrockStream.HandleBedrockStream | bedrock.go:134-187 | The event loop writes the frames of the specification and returns the usage, none after a stream that failed. |
| BedrockFrames.UsageIff | reasoning.go:165-180 | A chunk yields usage exactly when its metrics are an object with both counts as numbers: the counts without their fractions, and their sum. |
| BedrockFrames.UsageOfStream | bedrock.go:139-187 | The usage returned for a stream, and its closing frame with identity and totals, are those of the last chunk with counts. |
| BedrockFrames.NoUsage | bedrock.go:139-183 | Without such a chunk there is neither. |
| BedrockFrames.SentIff | bedrock.go:144-153 | An event adds its rewritten chunk exactly when that does not parse or has a choice with a finish reason, a delta that is no object, a role or text left. |
| BedrockFrames.VisibleChunkIsSent | reasoning.go:214-241 | In any stream every chunk with something left to show, a finish reason or a role is among the frames, behind those of the events before it. |
| BedrockFrames.OneEndMarker | bedrock.go:163-183 | The end marker is the last frame of a stream that ended well, and occurs nowhere else. |
| BudgetStore.CacheKeyInjective | token_budget.go:122-127 | The cache key of a row the database can hold belongs to no other row. |
| BudgetStore.PostgresTokenBudgetStore.GetBudget | token_budget.go:132-166 | A fresh entry answers alone; otherwise the database does, and a found or missing row is cached, an error is not. |
| BudgetStore.PostgresTokenBudgetStore.CheckAllowed | token_budget.go:97-120 | No error exactly when both names are there, a budget is known and today's usage is below it; which error otherwise; and what is cached afterwards. |
| BudgetStore.PostgresTokenBudgetStore.AddUsage | token_budget.go:181-205 | Exactly the one row gains exactly the tokens, or nothing changes and the error says why. |
| BudgetCache.BoundedStaleness | token_budget.go:129-166 | In every interleaving of lookups, writes and time, what a lookup returned was that very row's budget at an instant before its return and later than its clock reading minus the time to live; without a time to live nothing is cached. |
| BudgetReads.MonotoneIff | token_budget.go:134-165 | In every interleaving: the results for each row, in the order of return, come from instants that never go back if and only if no store overwrites a budget that was read later. |
| BudgetReads.NextLookupGoesBackIff | token_budget.go:138-165 | After such a store a lookup that begins and ends next gets the older budget, though the later one was returned before it began, if and only if the entry stored has not expired already. |
| BudgetReads.StoreThenLookupReturns | token_budget.go:132-165 | After any store the next lookup returns what was stored if and only if the entry has not expired. |
| BudgetReads.UninterruptedCall | token_budget.go:132-166 | The steps of a call that nothing interrupts are `getBudget`: hit, failed query, or answer returned and cached. |
| BudgetReads.MonotoneWithoutOverlap | token_budget.go:145-165 | Reads are monotone in every run in which no two misses of a row overlap between query and store. |
| BudgetReads.LookupsMayGoBack | token_budget.go:145-165 | A run in which a lookup that begins after the new budget was returned gets the old one. |
| AppSettings.PostgresAppSettingsStore.Get | app_settings.go:92-154 | Lookup, query and store under one lock; errors leave the cache as it was. |
| AppSettings.MonotoneReads | app_settings.go:98-154 | In every interleaving results for one application come from instants that never go back, and none is older than the time to live. |
| AppSettings.NextLookupHitsIff | app_settings.go:98-154 | What is stored, a row or that there is none, is what the next lookup returns if and only if its clock reading is below the storing call's plus the time to live. |
| AppSettings.CallUnderLock | app_settings.go:98-154 | The steps of a call are `Get`; a failing query leaves the cache and returns nothing. |
| BudgetBound.StepConsistent | openai_compat.go:89-164 | Every step of every request keeps requests and controller in agreement: past admission a request holds a slot of its row's key until it closes. |
| BudgetBound.ArrivesAt | openai_compat.go:89-97 | A request enters the controller under its scope's key, and is answered at once only when a name for that is missing. |
| BudgetBound.PassesIff | openai_compat.go:139-164 | An admitted request goes on if and only if both names are there, a budget is configured and today's usage is below it. |
| BudgetBound.OvershootBound | openai_compat.go:89-187 | With c slots a key, budgets of at most B and at most M tokens a request, a row's daily usage never exceeds its initial value or B - 1 + c * M, in any scope and any interleaving. |
| BudgetBound.RecordCharged | openai_compat.go:510-520 | Recording usage turns one request's share of the bound into usage. |
| BudgetTight.BoundIsReached | openai_compat.go:139-187 | For every B, c, M and scope some run within these limits reaches B - 1 + c * M exactly. |
| EventStream.ParseAppend | stream.go:36-73 | Interpreting lines in two parts is interpreting them whole. |
| EventStream.LinesOfUnlines | stream.go:36-42 | Lines written one after another are read back as they were. |
| SseProxy.ProxySSEStream | stream.go:17-76 | The loop writes the lines of the specification; the callback sees exactly the payloads of the lines written, in order, but for the end marker's. |
| SseProxy.ChunksAreWritten | stream.go:36-73 | The same, on the specification: payloads written are the chunks reported, and the end marker's if the stream has one. |
| SseProxy.BlocksKeepMeaning | stream.go:36-73 | From any last event ID, the events in what is written are the upstream's events, transformed, without failures, through the end marker; extra blank lines dispatch nothing. |
| SseProxy.MeaningPreserved | stream.go:36-73 | The same down to the text sent, for streams of complete events whose one payload line comes last, and any transform whose results are single lines. |
| SseExact.ForwardsExactly | stream.go:36-73 | From any point of any stream, inside or between events, what remains is forwarded faithfully if and only if the condition holds from there. |
| SseExact.MeaningPreservedIff | stream.go:36-73 | Without a transform, for every list of lines: the client sees exactly the upstream's events, through the first that reads as the end marker, if and only if in each event the first payload line is the last data field, type and ID are settled before it, and a blank line follows; an event with the marker's line and other data is the last one; and nothing is sent after an event that reads as the marker without being that line. |
| SseExact.TwoDataLinesBecomeTwoEvents | stream.go:66 | Two data lines are one event upstream and two for the client. |
| SseExact.UnfinishedEventIsDispatched | stream.go:48-66 | An unfinished last event, the end marker's included, is dropped upstream and dispatched to the client. |
| SseExact.MarkerInsideAnEventCutsTheStream | stream.go:48-51 | The marker's line inside an event with other data ends the stream for the client but not upstream. |
| ConnString.BuildPostgresDSNFromEnv | config.go:587-607 | The loop prints the settings that the table gives, in its order. |
| ConnString.EachKeywordReadsItsVariable | config.go:588-607 | For every environment whose variables survive, the string reads back with each of the six keywords given its own variable's non-empty value, at most once, in order. |
| ConnString.TwoReplacementsAreOnePass | config.go:615-616 | Doubling backslashes and then escaping quotes is escaping both in one pass. |
| ConnString.QuotedReadsBack | config.go:611-618 | A reader gets back from a quoted value, followed by anything, the value itself. |
| ConnString.ValueReadsIff | config.go:611-618 | A printed value is read back if and only if it was quoted or has no whitespace. |
| ConnString.RoundTripIff | config.go:587-618 | Reading printed settings gives them back, in order, if and only if every value survives, for any reader's notion of whitespace. |
| ConnString.ConnectionStringReadsBackIff | config.go:587-618 | The same for the string built from any environment. |
| ConnString.TabSplitsAValue | config.go:612-614 | A value with a tab is not quoted, and what follows the tab can be read as another setting. |
| AuthMachine.LockedWhenLastSeen | server.go:152-163 | In every interleaving an entry with ten failures or more was locked when it was last seen. |
| AuthMachine.SweepSparesRunningLockouts | server.go:89-106 | Neither sweep rule ever ends or changes a running lockout, though its clock reading is older than its effect; what it removes is over, or idle for half an hour. |
| AuthMachine.LockoutHolds | server.go:117-132 | Once no request of the client is under way, nothing ends or moves its lockout within the five minutes. |
| AuthMachine.LockoutLastsExactly | server.go:117-132 | Its next request is turned away if and only if the five minutes are not over, whatever happened meanwhile. |
| AuthMachine.TurnedAwayIff | server.go:117-132 | The request is answered so and left out, or goes on with the old entry gone. |
| AuthMachine.SweepLeaves | server.go:89-104 | A pass leaves exactly the entries not locked for five minutes or more and seen within half an hour. |
| AuthMachine.SuccessClears | server.go:143-150 | A valid key removes the client's entry, whatever its count, and changes no other. |
| AuthMachine.TenFailuresAfterSuccess | server.go:143-163 | After a valid key, in every interleaving, the client is not turned away before ten failures of it have been recorded since. |
| AuthMachine.CountIsBounded | server.go:117-163 | With at most k overlapping requests of a client its count never exceeds 9 + k; ten without overlap. |
| AuthMachine.GuessesPerWindow | server.go:117-163 | In any window of less than five minutes without the valid key, a client with at most k requests at a time records at most 9 + k failures, and 9 + k more for each late request: one that read the clock before the window and has not recorded its failure when it starts. |
| AuthMachine.GuessesPerFreshWindow | server.go:117-163 | In a window that starts with no late request, though others may be past their check, it is at most 9 + k. |
| AuthMachine.GuessesAlone | server.go:117-163 | In any window at all, a client whose requests do not overlap records at most eleven. |
| AuthOverlap.BoundAloneIsReached | server.go:153-163 | A run without overlap in which a late request and ten guesses after it make eleven failures in no time. |
| AuthMachine.ExpirySweepIsInvisible | server.go:93-98 | For requests that do not overlap, every run gives the same answers with the sweeper's first rule and without it. |
| AuthMachine.SweepIsInvisible | server.go:93-98 | The same from the start. |
| AuthOverlap.CountBoundIsReached | server.go:117-163 | For every k some run with at most k overlapping requests reaches a count of 9 + k. |
| AuthOverlap.SweepShowsUnderOverlap | server.go:93-98 | A run with two overlapping requests whose answers differ with and without that rule. |
| AuthMiddleware.AuthLockouts.CheckLockout | server.go:117-132 | A running lockout blocks; an expired one is reset. |
| AuthMiddleware.AuthLockouts.RecordFailure | server.go:153-163 | One more failure; from the tenth on it locks. |
| AuthMiddleware.AuthLockouts.SweepOnce | server.go:91-104 | In whatever order the entries come, exactly those that neither rule removes are left. |
| AuthMiddleware.AuthLockouts.Authenticate | server.go:108-166 | Of a request that no other overlaps: when it is turned away or accepted, with or without the prefix; the entry gone after a valid key, one more failure after an invalid one, all others unchanged. |

## Left out

- HTTP, provider calls, AWS signing, headers, rate-limit bodies and the health check path: input and output.
- JSON encoding and decoding: chunks are parsed values, or bytes that do not parse.
- Time and scheduling: clocks do not go back, step choice is free; timers, `WaitDuration` and the `Retry-After` value are not modelled.
- The `sync.Once`, mutexes and channels themselves: a locked section is one step, closing a channel wakes its waiter.
- A usage update that the database commits after its context has timed out and reported an error: an update with an error is taken as not done.
- More than one proxy process on one database: the overshoot bound is for one.
- SQL: two tables with atomic reads and an atomic add; the schema's own checks on negative numbers are not modelled. Text with a zero character is refused by the database.
- The scanner's buffer limit, carriage returns and a leading byte order mark: a stream is a sequence of lines.
- BedrockStream.RewriteJSONContentMap: nested JSON maps are values, because the source never shares one between chunks; their update in place is not captured.
- AuthMiddleware.AuthLockouts: an entry is a value in the map where the source keeps a reference, because no reference outlives its locked section except for the read that computes `Retry-After`.
- SseExact.MeaningPreservedIff: for payloads forwarded as they are; a transform is covered by SseProxy.MeaningPreserved for regular streams.
- The Gemini provider's own end marker, OpenAI field conversion, finish reasons, embeddings: short maps and folds.
- The non-streamed Bedrock response: it strips each message in one call, which StripReasoning covers.
- normalizeConcurrencyScope and normalizeAppLogLevel: spellings are taken as already normalised.
- Configuration loading other than the connection string, log truncation and asynchronous log insertion.
