# VoiceOS: verified models

VoiceOS is a multi-tenant platform for voice agents. This project models the stateful protocols and
text algorithms at its core in Dafny and proves what they promise, for every input and every run.

Each protocol has a specification on values (functions on a state), the service's own in-place
code as methods of a class proved equal to that specification, and lemmas about the specification
over whole runs.

- **Campaign dialer** (`Campaigns`, `Dialer`, `DialerSafety`, `DialerTicks`, `DialerRuns`,
  `DialerClaims`, `DialerOutcomes`, `CallEnds`, `DialerStore`): claiming contacts, the runner tick,
  call ends and retries.
- **Usage metering** (`Metering`, `UsageMinutes`, `MeteringLaws`, `MeteringOutcomes`,
  `MeteringStore`): overage minutes reported as deltas over a growing set of usage records.
- **Idempotency keys** (`Idempotency`, `IdempotencySafety`, `IdempotencyRedis`, `RedisAnswers`,
  `IdempotencyWitnesses`, `OutboundCalls`, `OutboundAnswers`): concurrent requests over the
  in-memory and the Redis store, step by step, what they are answered, and the handler that takes
  the steps.
- **Template runtime** (`JsText`, `Expr`, `ExprRoundTrip`, `ExprLaws`, `CssLexer`, `CssImportant`,
  `CssIdempotence`, `CssLaws`): the expression evaluator and the CSS scanner.
- **Document chunks** (`Chunker`), **agent versions** (`Versions`, `VersionHistory`,
  `VersionEffects`, `DraftTools`, `VersionStore`), **circuit breaker** (`Breaker`, `Resilience`),
  **call quality** (`CallQuality`, `Percentiles`), **conversation flows** (`Flow`, `FlowEngine`,
  `FlowAnswers`), **workspace slugs** (`Slugs`), **webhook deliveries** (`Webhooks`,
  `WebhookEffects`, `WebhookStore`), **WhatsApp queue** (`WhatsApp`, `WhatsAppEffects`).
  `Wrappers`, `Sets` and `Rounding` hold what several modules share.

The modules named after laws, outcomes and effects say what an operation does without naming the
functions that compute it: by cases on the input, as counts, or as laws for each form of text.

`dafny verify dfyconfig.toml` checks the whole project.

## What the code does not promise

The proofs found places where a natural promise fails. The code is modelled as it is, with the exact
condition under which the promise holds and an input on which it fails.

- The in-memory usage upsert drops the Stripe marker, so a call end that is reported twice is billed
  twice (`MemoryUpsertExact`, `MemoryBillsTwice`). The Postgres upsert keeps the marker but lets the
  length of a marked record change, and minutes added that way are never billed (`SqlUpsertExact`,
  `SqlGrowthStaysUnbilled`).
- The in-memory store accepts a tool list when as many of its entries are the tenant's own tools as
  it has different ids. With repetitions that lets through ids that are not the tenant's and refuses
  lists of own tools (`AcceptsExactly`, `RepeatAdmitsForeign`); without repetitions it is the
  intended test (`DistinctAccepted`), which the Postgres store always makes (`SqlAcceptsOwn`).
- A string literal that contains an equality operator is evaluated as a comparison
  (`StringLiteralExact`, `StringLiteralBroken`).
- Over Redis, a request whose key vanishes between SET and GET is told that a request is in
  progress, which the in-memory store does not say of a key that is free (`RefusesExactly`). That
  answer is one the in-memory store gives at some moment between the two commands when every key has
  one payload and none of its responses is withdrawn (`AnswersAreMemoryAnswers`); with two payloads,
  or a withdrawn response, it need not be (`RaceAnswersInProgress`, `WithdrawnAnswersInProgress`).
- A stored response is withdrawn when its own writer's `complete` raises after writing, also when
  another request was told that response before (`StoredStays`, `ReplayedThenWithdrawn`).
- A limit, weekday list, window or zone that cannot be read makes the tick raise when it comes to read
  it, and leaves that contact and all claimed after it in `calling` without a call
  (`TickPartitions`).
- The end of the last call completes a campaign even if it was cancelled (`SettleFresh`).
- A failing probe does not open a half-open circuit again unless enough recent failures remain
  (`FailureOpens`, `QuietProbeStaysHalfOpen`).
- After a terminal state the simulator goes on where the live engine stays; and it refuses requests
  with a state whose id is empty or longer than 120 characters, which a process may declare
  (`SimulatorAgrees`, `DetourFollowed`).
- The last of the five configured webhook delays, twelve hours, is never used: the fifth failed
  attempt is the last (`OutcomeExactly`).
- Operator messages numbered with a stale count break a call's turn numbering for good
  (`OrdinalsConsecutive`).

## Model

| member | source | states |
|---|---|---|
| DialerRuns.BoundedDialing | apps/api/voiceos_api/repository.py:2640-2701 | Over every run of ticks, deferrals, failed provisioning, repeated call reports, edits and new contacts, a contact is dispatched at most max(1, max_attempts) times and never more often than its `attempts` count. |
| DialerSafety.TickBounded | apps/api/voiceos_api/routes.py:2450-2539 | One tick keeps that bound whatever the outside answers: a contact that may still be claimed has a dial left, and no contact is dialed beyond its budget. |
| DialerSafety.UpdateBounded | apps/api/voiceos_api/repository.py:2640-2721 | The end of a call, reported any number of times, never grants a dial beyond the bound. |
| DialerRuns.RunWithin | apps/api/voiceos_api/routes.py:2465-2533 | Along every run that revives no finished call, a tenant stays within its plan limit and a campaign within the smaller of its own limit and the plan, also when provisioning raises after the call row exists. |
| DialerSafety.TickCapacity | apps/api/voiceos_api/routes.py:2465-2482 | From any state, even one already over a limit, a tick adds no active call to a tenant or campaign that is at its limit. |
| DialerTicks.TickDispatchesLegally | apps/api/voiceos_api/repository.py:2966-2992 | A dispatched contact was due, off the do-not-call list and in a running campaign when claimed; the local time was on an allowed weekday, in the window and between 8h and 20h; its call is new and its own. |
| DialerTicks.TickPartitions | apps/api/voiceos_api/routes.py:2449-2539 | After a tick every claimed contact before the first whose schedule or zone cannot be read is exactly one of: calling over its own fresh call, due later, or failed. That one and all after it are left calling without a call. Unclaimed contacts are untouched; claims reached = dispatched + deferred + failed; all are reached if and only if every claim can be read. |
| DialerOutcomes.TickOutcomes | apps/api/voiceos_api/routes.py:2449-2539 | For every claim a tick reaches, told from the state before the tick: outside legal hours it retries after 300 seconds; without room under the plan and campaign limits, earlier calls of the tick counted in, after 30; with both, by the answer: not ready ends it as failed, an exception before the call exists retries after 300 seconds without a call, one while provisioning with one queued call, a connection leaves it calling over its own new queued call. The calls are the old ones and exactly those; each total counts its claims. |
| DialerOutcomes.DialOneBecomes | apps/api/voiceos_api/routes.py:2455-2533 | The same cases for one claim: the contact's exact record, the call created or not, and the total it counts in. |
| DialerOutcomes.UnreadableExactly | apps/api/voiceos_api/campaigns.py:21-38 | A claim raises if and only if its zone is no name, its weekdays cannot be read, on an allowed weekday its window cannot, or in legal hours its limit cannot. |
| DialerRuns.EveryDispatchLegal | apps/api/voiceos_api/routes.py:2449-2533 | Every dispatch of a whole run was made by one of its ticks and was legal in the state that tick started from. |
| DialerSafety.ClaimFromClaims | apps/api/voiceos_api/repository.py:2966-2992 | Claiming changes exactly the claimed contacts, each once, and each was claimable before. |
| DialerClaims.ClaimsAreFirst | apps/api/voiceos_api/repository.py:2966-2992 | Claimed are the first due contacts in order, as many as the limit allows but at least one; waiting retries whose time has come included. |
| DialerClaims.TickClaims | apps/api/voiceos_api/routes.py:2450-2452 | A tick claims the first hundred due contacts. |
| DialerClaims.DueIsClaimed | apps/api/voiceos_api/repository.py:2966-2992 | A due contact is left out only when the limit was reached. |
| DialerRuns.StatsAddUp | apps/api/voiceos_api/repository.py:2697-2718 | The totals of a campaign partition its contacts, and nothing remains exactly when no contact is pending, in retry or calling. |
| DialerRuns.SettleFresh | apps/api/voiceos_api/repository.py:2687-2719 | Settling a contact writes totals that are true of the new state and completes the campaign exactly when nothing remains, a cancelled campaign too. |
| CallEnds.ContactEnds | apps/api/voiceos_api/repository.py:2675-2719 | The end of a campaign call changes the first contact with that last call and no other: it retries if and only if the outcome was no_answer, busy or failed and attempts are left, after the policy's delay; otherwise it is done if and only if the call was completed, and else ends as the call did. The campaign gets totals that count its contacts and is completed if and only if none is open. |
| CallEnds.CallOnly | apps/api/voiceos_api/repository.py:2640-2681 | Any other report changes the call's status and nothing else. |
| CallEnds.TotalsCount | apps/api/voiceos_api/repository.py:2697-2716 | The four totals are the numbers of the campaign's contacts, of the done, of those that ended otherwise, and of those pending, in retry or calling. |
| DialerStore.MemoryRepository.ClaimCampaignContacts | apps/api/voiceos_api/repository.py:2966-2992 | The loop over the store claims what the specification claims, in contact order, up to the limit. |
| DialerStore.MemoryRepository.CountActive | apps/api/voiceos_api/routes.py:2465-2472 | Both counts are the sizes of the tenant's and the campaign's sets of active calls. |
| DialerStore.MemoryRepository.DialContact | apps/api/voiceos_api/routes.py:2455-2533 | The body of the tick's loop, branch by branch, on the store; `DialOneBecomes` says what each branch leaves. |
| DialerStore.MemoryRepository.CampaignRunnerTick | apps/api/voiceos_api/routes.py:2449-2539 | The tick leaves the store and the counts that the specification says, described by `TickOutcomes`, and raises exactly when a claim could not be read. |
| DialerStore.MemoryRepository.CampaignTotals | apps/api/voiceos_api/repository.py:2697-2716 | The sums over a campaign's contacts. |
| DialerStore.MemoryRepository.UpdateInternalCall | apps/api/voiceos_api/repository.py:2640-2721 | A reported call end leaves the store that `ContactEnds` and `CallOnly` describe. |
| Campaigns.SelectDispatchable | apps/api/voiceos_api/campaigns.py:41-72 | Raises exactly when a window, zone or limit that it comes to look at is malformed. Otherwise the result is the longest prefix of the due contacts, in order, that fits under the configured and the plan limit; nothing outside a running campaign and a legal hour. |
| Campaigns.RetryAtExact | apps/api/voiceos_api/campaigns.py:75-84 | A retry is granted exactly for no_answer, busy and failed with attempts left; the delay is that of the attempt, the last one repeating. |
| Campaigns.HoursExactly | apps/api/voiceos_api/campaigns.py:21-38 | Dialing is allowed exactly on an allowed weekday, inside the window and from 8h to 20h in the contact's own zone or else the campaign's; it raises exactly when a field it comes to cannot be read. |
| Campaigns.TransitionExactly | apps/api/voiceos_api/campaigns.py:6-18 | Which action leads from which status to which. |
| Campaigns.DueExactly | apps/api/voiceos_api/campaigns.py:60-72 | A contact is due exactly when it waits, is not blocked, its next attempt has come and the hour is legal. |
| Campaigns.DueOnlyCounts | apps/api/voiceos_api/campaigns.py:60-72 | The selection is made from all due contacts, each as often as it is listed. |
| Campaigns.DueOnlySplits | apps/api/voiceos_api/campaigns.py:60-72 | And in the order of the list. |
| Campaigns.CountActiveIs | apps/api/voiceos_api/campaigns.py:52-59 | The active calls of the campaign are those queued, ringing or in progress. |
| MeteringLaws.RunExact | apps/api/voiceos_api/repository.py:3094-3137 | Over any run of usage arrivals and ticks, refused or not, the billed minutes equal max(0, reported - included) all along if and only if every arrival is safe in the state it meets. |
| MeteringLaws.RepeatedReportsConserve | apps/api/voiceos_api/repository.py:1023-1032 | From empty books, call ends reported any number of times with the call's own length are safe: the law holds whatever the ticks do. |
| MeteringLaws.RunConserves | apps/api/voiceos_api/routes.py:2547-2574 | Along every safe run from books that satisfy the law, it holds at the end. |
| MeteringLaws.TickConserves | apps/api/voiceos_api/routes.py:2547-2574 | A tick keeps the law, whichever reports and phone updates Stripe refuses. |
| MeteringLaws.TickSettles | apps/api/voiceos_api/routes.py:2547-2574 | A tick whose reports are all accepted bills every active tenant exactly the overage it is shown. |
| UsageMinutes.MinutesStarted | apps/api/voiceos_api/repository.py:3037 | A record counts for the least number of minutes that covers its seconds: every started minute. |
| UsageMinutes.SumIsStarted | apps/api/voiceos_api/repository.py:3102-3112 | The minutes of a month, all or only marked ones, are the sums of the started minutes of its calls. |
| MeteringOutcomes.TickBillsStarted | apps/api/voiceos_api/routes.py:2547-2574 | After a tick whose reports are all accepted a tenant is billed the started minutes of all its calls of the month, beyond those its plan includes. |
| MeteringOutcomes.MeterTickOutcomes | apps/api/voiceos_api/routes.py:2547-2574 | The whole tick, told from the books before it: one batch for each active subscription; exactly this month's records of accepted batches get the marker; exactly their positive deltas are reported, in order; the totals count the marked calls, the phone quantities set, and the refused batches and phone quantities. |
| MeteringOutcomes.UpsertEffects | apps/api/voiceos_api/repository.py:1023-1032 | What both upserts leave of the call's record. |
| MeteringLaws.MarkedIsBilled | apps/api/voiceos_api/repository.py:3030-3048 | Once no record of the month is unmarked, the billed minutes equal `overage_minutes`. |
| MeteringLaws.DeltaNotNegative | apps/api/voiceos_api/repository.py:3107-3122 | Every reported delta is non-negative. |
| MeteringLaws.SqlUpsertExact | apps/api/voiceos_api/repository.py:1023-1032 | The Postgres upsert, which keeps the Stripe marker, keeps the law if and only if a marked record keeps its minutes or the marked minutes lie within the plan before and after. |
| MeteringLaws.SqlGrowthStaysUnbilled | apps/api/voiceos_api/repository.py:1023-1032 | A concrete call that was billed for one minute and is then reported with two: over the Postgres upsert nothing is left to mark, later ticks change nothing, and the second minute, although shown, is never billed. |
| MeteringLaws.MemoryUpsertExact | apps/api/voiceos_api/repository.py:2662-2670 | The in-memory upsert, which drops the marker, keeps the law if and only if the record was unmarked or without minutes, or the marked minutes lie within the plan. |
| MeteringLaws.MemoryBillsTwice | apps/api/voiceos_api/repository.py:2662-2670 | A concrete call reported twice unchanged is billed twice by the in-memory store. |
| MeteringLaws.ThresholdEvents | apps/api/voiceos_api/repository.py:3139-3158 | An alert at 80 or 100 percent is raised exactly once per tenant, month and threshold, the first time it is seen crossed. |
| MeteringStore.BillingRepository.UpsertUsage | apps/api/voiceos_api/repository.py:1023-1032 | The upsert statement on the record list. |
| MeteringStore.BillingRepository.BillingMeterBatches | apps/api/voiceos_api/repository.py:3094-3129 | One batch for each active subscription, in order: the calls not yet marked, and the started minutes beyond the plan of all the month's calls less those of the marked ones. |
| MeteringStore.BillingRepository.MarkUsageReported | apps/api/voiceos_api/repository.py:3131-3137 | Exactly the selected records of the tenant get the marker. |
| MeteringStore.BillingRepository.BillingMeterTick | apps/api/voiceos_api/routes.py:2547-2574 | The loop over batches reports, marks and counts as specified, all batches being computed first. |
| MeteringStore.BillingRepository.GetBillingUsage | apps/api/voiceos_api/repository.py:3030-3048 | The started minutes, the number of calls, the cost rounded to four places, the minutes beyond the plan and their estimated price. |
| UsageMinutes.CostsAdd | apps/api/voiceos_api/repository.py:3044 | The cost of a month adds up over any cut of the records, a call of that tenant and month counting its own. |
| Rounding.RoundNearest | apps/api/voiceos_api/repository.py:3044 | Rounding takes the nearest, and of two nearest the even one. |
| IdempotencySafety.AtMostOneLiveCall | apps/api/voiceos_api/routes.py:1416-1502 | In every interleaving of any number of requests, at most one holds a key and at most one call created under it is not marked failed. |
| IdempotencySafety.StepKeepsInv | apps/api/voiceos_api/routes.py:1419-1502 | Every single step of any request, failing or not, keeps the reservation discipline behind that. |
| IdempotencySafety.StoredStays | apps/api/voiceos_api/idempotency.py:84-114 | A stored response stays identical through every step but one: the release of its own writer, whose `complete` raised after writing. |
| IdempotencySafety.ReplaysForever | apps/api/voiceos_api/routes.py:1419-1438 | Over any further run without that step, the same payload is answered with the stored response and a different one conflicts. |
| IdempotencySafety.FingerprintStays | apps/api/voiceos_api/idempotency.py:84-111 | While a key's entry exists, its fingerprint never changes. |
| IdempotencyRedis.RunRefines | apps/api/voiceos_api/idempotency.py:33-81 | Every run over Redis, with its two commands per `reserve`, is a run of the in-memory steps with one move added: `Refuse`, which answers "in progress" and changes nothing else. |
| IdempotencyRedis.RedisAtMostOneLiveCall | apps/api/voiceos_api/idempotency.py:33-81 | So the guarantee holds over Redis too. |
| RedisAnswers.RefusesExactly | apps/api/voiceos_api/idempotency.py:33-52 | The added move occurs in that run if and only if some GET finds a key gone that its SET found taken; otherwise the run is one of the in-memory store alone. |
| RedisAnswers.AnswerLinearizes | apps/api/voiceos_api/idempotency.py:33-52 | In every run, what a request is answered after a failed SET and its GET is an answer the in-memory store gives at some moment in between if and only if the key is there at the GET or was pending with the same payload. |
| RedisAnswers.AnswersAreMemoryAnswers | apps/api/voiceos_api/idempotency.py:33-52 | With one payload per key and no withdrawn response of the key, every such answer is one the in-memory store gives between the SET and the GET. |
| RedisAnswers.CleanWithdrawsNone | apps/api/voiceos_api/idempotency.py:54-81 | No response is withdrawn in a run in which no `complete` raises after it has written. |
| RedisAnswers.RedisReplaysForever | apps/api/voiceos_api/idempotency.py:33-52 | Over Redis too, however long a request waits before its SET and between SET and GET, a stored response that is not withdrawn is what it is answered, or a conflict for another payload. |
| RedisAnswers.RedisStoredStays | apps/api/voiceos_api/idempotency.py:54-81 | Over Redis too, a stored response stays identical through every step but its own writer's withdrawal. |
| RedisAnswers.RedisFingerprintStays | apps/api/voiceos_api/idempotency.py:54-75 | Over Redis too, the fingerprint of an entry never changes while it exists. |
| IdempotencyWitnesses.RaceAnswersInProgress | apps/api/voiceos_api/idempotency.py:33-52 | A concrete run with two payloads: a request is told "in progress", which the in-memory store would say to it at no moment between its SET and its GET. |
| IdempotencyWitnesses.WithdrawnAnswersInProgress | apps/api/voiceos_api/idempotency.py:33-52 | The same in a run with one payload and a withdrawn response. |
| IdempotencyWitnesses.ReplayedThenWithdrawn | apps/api/voiceos_api/routes.py:1475-1502 | A concrete run in which a stored response is told to a second request, and the writer, whose `complete` had raised after writing, then marks the call failed and frees the key. |
| OutboundCalls.ServedAlone | apps/api/voiceos_api/routes.py:1438-1502 | Served alone on a free key, a success leaves its call live and its response stored; a telephony error leaves the error stored and no live call; any other exception frees the key and leaves no live call. |
| OutboundCalls.ServedAnswer | apps/api/voiceos_api/routes.py:1416-1502 | What a request served alone is answered, whatever its key finds and whatever fails: on a taken key a conflict, "in progress" or the stored response; on a free one its new call, the provider's error as a 502 once the call is marked and the error stored, and otherwise nothing, as it raises. |
| OutboundCalls.ServedLeaves | apps/api/voiceos_api/routes.py:1438-1502 | What it leaves under a free key, and whether its call stays live, whichever of its store commands or the marking raise, with or without effect. |
| OutboundAnswers.StepAnswers | apps/api/voiceos_api/routes.py:1416-1493 | In every interleaving over the in-memory store a request is answered what the entry of its key says right afterwards. |
| OutboundAnswers.RedisStepAnswers | apps/api/voiceos_api/idempotency.py:33-52 | Over Redis too, unless the key has vanished; then the answer is "in progress". |
| OutboundAnswers.RedisServedAnswer | apps/api/voiceos_api/idempotency.py:33-75 | Served alone over Redis a request is answered as over memory, except that a GET that raises ends it. |
| OutboundAnswers.RedisServedSame | apps/api/voiceos_api/idempotency.py:33-81 | On a free key it leaves the same state, too. |
| OutboundAnswers.ComesAgain | apps/api/voiceos_api/routes.py:1419-1438 | What a request was replayed, its own call or error included, is what a later request with that key and payload is answered, after any steps of others that do not withdraw the response. |
| OutboundAnswers.RedisComesAgain | apps/api/voiceos_api/idempotency.py:33-52 | Over Redis too, whatever others do before its SET and between SET and GET. |
| OutboundCalls.ServedIsRun | apps/api/voiceos_api/routes.py:1416-1502 | Serving a request is a run of the protocol's steps, so the guarantees above apply to it. |
| OutboundCalls.OutboundCallHandler.CreateOutboundCall | apps/api/voiceos_api/routes.py:1412-1502 | The handler on the shared records takes exactly those steps, also when `reserve` raises, and gives the answer that `ServedAnswer` describes. |
| OutboundCalls.OutboundCallHandler.DoWork | apps/api/voiceos_api/routes.py:1439-1475 | The `try` block. |
| OutboundCalls.OutboundCallHandler.CleanUp | apps/api/voiceos_api/routes.py:1476-1502 | The two exception handlers: the provider's error as a stored 502, or nothing. |
| Idempotency.MemoryIdempotencyStore.Reserve | apps/api/voiceos_api/idempotency.py:88-98 | Reserves a free key; otherwise conflict, in progress or the stored response. |
| Idempotency.MemoryIdempotencyStore.Complete | apps/api/voiceos_api/idempotency.py:100-111 | The entry becomes complete with this fingerprint and response. |
| Idempotency.MemoryIdempotencyStore.Release | apps/api/voiceos_api/idempotency.py:113-114 | The key is free again. |
| Idempotency.RedisIdempotencyStore.SetIfAbsent | apps/api/voiceos_api/idempotency.py:36-41 | The SET NX of `reserve`. |
| Idempotency.RedisIdempotencyStore.Get | apps/api/voiceos_api/idempotency.py:42-52 | What the GET of `reserve` answers. |
| Idempotency.RedisIdempotencyStore.Complete | apps/api/voiceos_api/idempotency.py:54-75 | Writes only over an existing key. |
| ExprRoundTrip.RoundTrip | docs/design/support.js:205-294 | For every expression tree, with each equality printed in parentheses, `resolve` of the printed text is the tree's meaning. |
| ExprLaws.StrictEquality | docs/design/support.js:214-218 | `===` of two printed expressions is true if and only if both are one and the same value and not NaN; `!==` is its opposite. |
| ExprLaws.LooseEquality | docs/design/support.js:219-223 | `==` is `===` on values of one type; null and undefined equal each other and nothing else; other types compare as the host converts them; `!=` is its opposite. |
| ExprLaws.Negation | docs/design/support.js:226 | `!` is true if and only if the value is undefined, null, false, 0, NaN or the empty text. |
| ExprLaws.NameResolves | docs/design/support.js:263-266 | A name is that property of the template's values. |
| ExprLaws.FieldResolves | docs/design/support.js:268-272 | A field is that property of what is before it, undefined of null and undefined. |
| ExprLaws.BracketResolves | docs/design/support.js:273-290 | So is a bracket, by what the text in it resolves to. |
| ExprLaws.IntegerResolves | docs/design/support.js:231 | A row of digits is the number it writes down. |
| ExprLaws.DecimalResolves | docs/design/support.js:231 | So are digits with a point. |
| ExprLaws.WordsResolve | docs/design/support.js:227-234 | The four words and quoted texts are their values. |
| ExprLaws.SpacedResolves | docs/design/support.js:206 | White space around an expression does not matter. |
| ExprLaws.BlankResolves | docs/design/support.js:207 | Nothing else than white space is undefined. |
| ExprLaws.TrailingDot | docs/design/support.js:268-270 | A path that ends in a dot is undefined. |
| ExprLaws.OpenBracket | docs/design/support.js:273-283 | A path that ends inside a bracket is undefined. |
| ExprRoundTrip.StringLiteralExact | docs/design/support.js:212-231 | A quoted text of any content resolves to its content if and only if the scan finds no equality operator in it. |
| ExprRoundTrip.StringLiteralBroken | docs/design/support.js:248-262 | A string literal holding `==` resolves to something else. |
| ExprRoundTrip.PassesTree | docs/design/support.js:237-262 | All three scanners pass over a printed expression at every depth. |
| Expr.Evaluate | docs/design/support.js:205-236 | `resolve` terminates on every text and computes the specified value. |
| Expr.ParensWrapWhole | docs/design/support.js:237-247 | True exactly when the first parenthesis is not closed before the end. |
| Expr.FindTopLevelEquality | docs/design/support.js:248-262 | The first equality outside brackets that has text on its left. |
| Expr.EvaluatePath | docs/design/support.js:263-294 | The path loop with its bracket scan. |
| CssIdempotence.ImportantifyIdempotent | docs/design/support.js:1542-1566 | `importantify` of its own output changes nothing, on every text. |
| CssIdempotence.ImportantifyKeepsDeclarations | docs/design/support.js:1542-1566 | The declarations of the output are those of the input, in order, each ending in the flag; none is lost, joined or cut differently. |
| CssIdempotence.SplitBodies | docs/design/support.js:1544-1564 | Cut pieces contain no comment and no cutting semicolon, and only the last can end inside a string, url or parenthesis. |
| CssIdempotence.JoinSplits | docs/design/support.js:1565 | Joining such declarations with semicolons and cutting again gives them back. |
| CssLaws.StripString | docs/design/support.js:1514-1527 | A string is kept as it is, comments and escaped quotes in it included, closed or not. |
| CssLaws.StripComment | docs/design/support.js:1528-1531 | A comment becomes one space, closed or not. |
| CssLaws.StripUrl | docs/design/support.js:1532-1537 | An unquoted url is kept as it is, closed or not. |
| CssLaws.StripChar | docs/design/support.js:1532-1534 | Any other character is kept. |
| CssLaws.SplitsString | docs/design/support.js:1550-1553 | Nothing is cut inside a string. |
| CssLaws.SplitsUrl | docs/design/support.js:1559-1562 | Nothing is cut inside an unquoted url, and its parentheses do not count. |
| CssLaws.SplitsSemicolon | docs/design/support.js:1556-1558 | A semicolon outside of all parentheses ends a declaration. |
| CssLaws.SplitsChar | docs/design/support.js:1554-1562 | Any other character does not; parentheses change the depth, which is never negative. |
| CssLaws.FlagExactly | docs/design/support.js:1565 | A declaration counts as flagged exactly when it ends in a bang, white space and `important` in either case. |
| CssLaws.WrittenExactly | docs/design/support.js:1565 | Each piece is trimmed, empty ones are dropped, and the others get the flag unless they have it. |
| CssLexer.StripRelex | docs/design/support.js:1511-1541 | The tokens of the stripped text are the old tokens with each comment replaced by a space: no comment or url appears by joining, strings and urls survive verbatim. |
| CssLexer.StripIdempotent | docs/design/support.js:1511-1541 | Stripping comments twice is stripping them once. |
| CssLexer.StripMeaning | docs/design/support.js:1511-1541 | Stripping is lexing, blanking the comments and writing the tokens. |
| CssLexer.LexLossless | docs/design/support.js:1511-1541 | The tokens of a text, written one after the other, are the text. |
| CssImportant.ScanUnquotedUrl | docs/design/support.js:1498-1510 | The end of the unquoted url token at the index, or -1. |
| CssImportant.StripComments | docs/design/support.js:1511-1541 | The loop writes the stripped text. |
| CssImportant.SplitDeclarations | docs/design/support.js:1544-1564 | The loop cuts at exactly the unquoted depth-0 semicolons outside urls. |
| CssImportant.Importantify | docs/design/support.js:1542-1566 | Strip, cut, trim, drop empty, flag, join. |
| Chunker.ChunkText | apps/api/voiceos_api/knowledge.py:21-36 | The loop ends for every text, size and overlap and returns the specified chunks. |
| Chunker.WindowsTile | apps/api/voiceos_api/knowledge.py:25-35 | Window starts strictly increase, windows are non-empty and at most `size` long, leave no gap and reach the end; each starts exactly at the larger of the next character and `overlap` characters before the end of the one before. |
| Chunker.WindowsRebuildText | apps/api/voiceos_api/knowledge.py:25-35 | Dropping what a window shares with the one before rebuilds the text exactly. |
| Chunker.WindowsBreakAtSpaces | apps/api/voiceos_api/knowledge.py:27-30 | A window that is not the last ends at the last space after its first character, and inside a word only if there is none. |
| Chunker.ChunksAreWindows | apps/api/voiceos_api/knowledge.py:32 | For sizes from 2 on, each chunk is its window without one leading space: non-empty, at most `size` long, no outer white space; there is none exactly when the text has no word. |
| Chunker.NormalizeIsJoin | apps/api/voiceos_api/knowledge.py:22 | The normalized text is the words of the text joined by single spaces. |
| Chunker.NormalizeKeepsWords | apps/api/voiceos_api/knowledge.py:22 | Normalizing keeps the list of words and is idempotent. |
| Chunker.SingleCharacterWindows | apps/api/voiceos_api/knowledge.py:32 | With size 1 a chunk can be empty. |
| VersionHistory.HistoryIsImmutable | apps/api/voiceos_api/repository.py:2369-2419 | Over every run, a published version never changes in any field, and of its tools exactly those go that the run deletes. |
| VersionHistory.VersionsAreNumbered | apps/api/voiceos_api/store.py:44-79 | After every run the draft is unpublished, the current version absent or published, and the published numbers are exactly 1 to n - 1, each once, the draft being n. |
| VersionHistory.RollbackRestores | apps/api/voiceos_api/repository.py:2382-2392 | Whatever happened since, rolling back to a published version makes `get_runtime` return it exactly as it was, with those of its tools that still exist and may be used. |
| VersionHistory.RollbackAfterPublish | apps/api/voiceos_api/repository.py:2394-2419 | Publish, anything at all, roll back: the content and tools the draft had when published. |
| VersionHistory.PublishShowsDraft | apps/api/voiceos_api/repository.py:2809-2842 | Publishing makes the draft what calls run with, unchanged; the new draft is a copy one number higher. |
| VersionHistory.StepKeepsInv | apps/api/voiceos_api/repository.py:2369-2419 | Every operation keeps the shape of every agent's versions and hands out unused ids. |
| VersionEffects.CreationEffects | apps/api/voiceos_api/store.py:44-79 | What a new agent and its only version are, and that nothing else changes. |
| VersionEffects.EditEffects | apps/api/voiceos_api/repository.py:2369-2380 | Exactly the named keys of the draft get their new values; every other key, version and record is as before. |
| VersionEffects.PublicationEffects | apps/api/voiceos_api/repository.py:2394-2419 | What publishing makes of the agent, of the draft and of the new draft, and that nothing else changes. |
| VersionEffects.NoPublication | apps/api/voiceos_api/repository.py:2394-2396 | Without such an agent of the tenant nothing is published. |
| VersionEffects.RollbackEffects | apps/api/voiceos_api/repository.py:2382-2392 | Which rollbacks are allowed, and that they change the agent's record only. |
| VersionEffects.DeletionEffects | apps/api/voiceos_api/repository.py:2789-2795 | A deleted tool is gone from the store and from every version, and no other. |
| VersionEffects.RuntimeExactly | apps/api/voiceos_api/repository.py:2809-2842 | Which version a call runs with and which of its tools: those that exist and, when they are MCP tools, are enabled and approved. |
| VersionStore.VersionRepository.CreateAgent | apps/api/voiceos_api/store.py:44-79 | A new agent with draft number 1, its twelve initial fields, and no current version. |
| VersionStore.VersionRepository.UpdateDraft | apps/api/voiceos_api/repository.py:2369-2380 | Only the draft's content changes, key by key. |
| VersionStore.VersionRepository.SetDraftTools | apps/api/voiceos_api/repository.py:2797-2807 | Replaces the draft's tools by the given ids and returns the tools found, or fails when the number found is not that of the different ids. |
| DraftTools.AcceptsExactly | apps/api/voiceos_api/repository.py:2803-2805 | A list is accepted if and only if own tools are repeated exactly as often as there are different ids that are not the tenant's. |
| DraftTools.DistinctAccepted | apps/api/voiceos_api/repository.py:2803-2805 | Without repetitions a list is accepted if and only if every id is the tenant's own; a list of own tools if and only if it has no repetition. |
| DraftTools.SqlAcceptsOwn | apps/api/voiceos_api/repository.py:1285-1292 | The Postgres test, which counts rows, accepts exactly the lists of own tools, repeated or not. |
| DraftTools.RepeatAdmitsForeign | apps/api/voiceos_api/repository.py:2803-2806 | An own tool named twice lets one foreign id through, which is attached; alone it is refused. |
| DraftTools.AttachedAreOwn | apps/api/voiceos_api/repository.py:2797-2842 | In every run whose tool lists repeat nothing, all tools of all versions exist and belong to the version's tenant. |
| VersionStore.VersionRepository.PublishAgent | apps/api/voiceos_api/repository.py:2394-2419 | In-place publication and the copy that becomes the draft. |
| VersionStore.VersionRepository.RollbackAgent | apps/api/voiceos_api/repository.py:2382-2392 | Succeeds exactly for a published version of the tenant's agent. |
| VersionStore.VersionRepository.DeleteTool | apps/api/voiceos_api/repository.py:2789-2795 | Removes the tool from the store and from every version. |
| Breaker.RunFromHistory | apps/agent-worker/voiceos_voice/resilience.py:42-51 | With a clock that does not run backwards, pruned list and opening time are those the full failure history since the last success calls for. |
| Breaker.OpenMeansEnoughFailures | apps/agent-worker/voiceos_voice/resilience.py:46-51 | An opened circuit had at least `failure_threshold` failures in the window that ends at `opened_at`. |
| Breaker.FailureOpens | apps/agent-worker/voiceos_voice/resilience.py:30-51 | A failure while the circuit is not open opens it if and only if enough failures lie in the window ending with it. |
| Breaker.StateExactly | apps/agent-worker/voiceos_voice/resilience.py:30-36 | In every run: closed as long as no failure since the last success tripped the circuit; from the last one that did, open for the recovery time and half-open from its end on. |
| Breaker.QuietProbeStaysHalfOpen | apps/agent-worker/voiceos_voice/resilience.py:30-51 | A failing probe does not open a half-open circuit again once the earlier failures have left the window. |
| Resilience.ResilientCall | apps/agent-worker/voiceos_voice/resilience.py:54-78 | Open: the primary is not called and the breaker untouched. Otherwise attempts stop at the first that does not fail, at most retries + 1; the flag is true exactly for the fallback's result; another exception ends the call. |
| Resilience.FailuresExtendHistory | apps/agent-worker/voiceos_voice/resilience.py:64-76 | The failures a call records extend the breaker's history. |
| Resilience.FaultsMeaning | apps/agent-worker/voiceos_voice/resilience.py:64-76 | The attempt the loop stops at is the first that does not fail. |
| Resilience.CircuitBreaker.Failure | apps/agent-worker/voiceos_voice/resilience.py:46-51 | Prunes, appends and opens. |
| Resilience.CircuitBreaker.Success | apps/agent-worker/voiceos_voice/resilience.py:42-44 | Clears the failures and closes. |
| CallQuality.MosMonotone | apps/agent-worker/voiceos_voice/accounting.py:21-28 | More loss, jitter or round-trip time never improves the score. |
| CallQuality.MosRange | apps/agent-worker/voiceos_voice/accounting.py:21-28 | The score lies between 1 and 4.4, its value on a perfect network, so the clamp at 4.5 is never reached. |
| CallQuality.RFactorFalls | apps/agent-worker/voiceos_voice/accounting.py:22-26 | How much a percent of loss and a millisecond of jitter or round-trip time take from the R-factor, below and above 177.3 ms of effective latency. |
| CallQuality.Anchors | apps/agent-worker/voiceos_voice/accounting.py:26-27 | The R-factor of a perfect network and four points of the cubic mapping. |
| CallQuality.ScoreMonotone | apps/agent-worker/voiceos_voice/accounting.py:27-28 | The mapping from R never decreases on 0 to 100. |
| CallQuality.RawScoreFalls | apps/agent-worker/voiceos_voice/accounting.py:27 | Without the lower clamp it would decrease. |
| Percentiles.SelectedIsNearestRank | apps/agent-worker/voiceos_voice/accounting.py:13-18 | The selected value is the only one in the list with at least p of the values at most it and less than p below it. |
| Percentiles.PercentilesOrdered | apps/agent-worker/voiceos_voice/accounting.py:13-18 | A higher percentile is never smaller: p50 is at most p95. |
| Percentiles.PercentileNearest | apps/agent-worker/voiceos_voice/accounting.py:13-18 | A percentile is reported in whole milliseconds, to the nearest. |
| Percentiles.MeanInRange | apps/agent-worker/voiceos_voice/accounting.py:69-77 | The mean score reported over any list of samples lies in the range of one score. |
| Percentiles.CallAccounting.ObserveNetwork | apps/agent-worker/voiceos_voice/accounting.py:51-61 | A sample with a negative measure is ignored; any other is added with its score. |
| Percentiles.CallAccounting.ObserveE2eLatency | apps/agent-worker/voiceos_voice/accounting.py:47-49 | Only a present, non-negative latency is added. |
| Percentiles.CallAccounting.NetworkMeans | apps/agent-worker/voiceos_voice/accounting.py:69-77 | The rounded means of loss, jitter, round-trip time and score, absent without samples; the mean score lies in the range of one score. |
| Percentiles.CallAccounting.LatencyPercentiles | apps/agent-worker/voiceos_voice/accounting.py:80-83 | p50 and p95 of the latencies. |
| FlowEngine.SimulatorAgrees | apps/api/voiceos_api/routes.py:946-978 | For every valid process and every list of utterances, the chained simulator gives the live engine's answer if and only if no earlier answer was terminal, every utterance has 1 to 2000 characters and the state of every earlier answer 1 to 120. |
| FlowEngine.DetourFollowed | apps/api/voiceos_api/schemas.py:82-84 | Two turns through a state: the simulator follows exactly when the id of that state has 1 to 120 characters. |
| FlowEngine.DetourAvoided | apps/api/voiceos_api/schemas.py:82-84 | The same process on turns that do not visit that state: its id does not matter. |
| FlowEngine.EngineStays | apps/agent-worker/voiceos_voice/flow.py:50-84 | In every run the engine is in a declared state and never moves after it ended. |
| FlowEngine.ReturnedAccepted | apps/api/voiceos_api/routes.py:961-969 | A declared state, such as every state the simulator returns, is accepted if and only if it has 1 to 120 characters, and the next state is declared again. |
| FlowEngine.Engine.Respond | apps/agent-worker/voiceos_voice/flow.py:63-84 | One turn of the engine. |
| FlowAnswers.AnswersMove | apps/agent-worker/voiceos_voice/flow.py:63-84 | For an intent that a transition of the state names, the first such transition decides: the engine moves to its target, says that state's prompt, passes on its action and has ended exactly when it is terminal. |
| FlowAnswers.AnswersFallback | apps/agent-worker/voiceos_voice/flow.py:66-74 | For any other intent it stays, and says the state's fallback, or asks again. |
| FlowAnswers.AnswersNothing | apps/agent-worker/voiceos_voice/flow.py:63-65 | After the end it says nothing and does nothing. |
| FlowAnswers.SimulateExactly | apps/api/voiceos_api/routes.py:959-978 | Which refusal a request gets, in order; otherwise the engine's answer from the given state or the initial one. |
| FlowEngine.SimulateTurn | apps/api/voiceos_api/routes.py:959-978 | One request: the limits on its text and state, validate, set the state, one turn of a new engine. |
| Flow.ValidateFlow | apps/agent-worker/voiceos_voice/flow.py:24-47 | The checks in the order of the code, with their errors. |
| Flow.ValidateMeaning | apps/agent-worker/voiceos_voice/flow.py:24-47 | Validation accepts exactly: states with distinct ids, a declared initial state, transitions with an intent and a declared target. |
| FlowAnswers.ErrorsExactly | apps/agent-worker/voiceos_voice/flow.py:24-35 | Which error a process without states, with bad ids or with an undeclared initial state gets. |
| FlowAnswers.BrokenTransition | apps/agent-worker/voiceos_voice/flow.py:36-44 | Of broken transitions the first one decides: it names no intent, or no declared state. |
| Flow.IdsCount | apps/agent-worker/voiceos_voice/flow.py:30-32 | Counting the ids finds duplicates and items that are no states. |
| Slugs.AvailableWorkspaceSlug | apps/web/lib/onboarding.ts:11-17 | The loop ends for every finite set with the first free candidate, whose place is at most the number of used slugs. |
| Slugs.TakenAtMostUsed | apps/web/lib/onboarding.ts:15 | k taken candidates need k used slugs: the pigeonhole argument. |
| Slugs.CandidateInjective | apps/web/lib/onboarding.ts:15 | Different suffixes give different slugs. |
| Slugs.PrefixSuffices | apps/web/app/onboarding/actions.ts:30-38 | Searching among the slugs with the base as prefix gives the same answer as searching among all. |
| Slugs.SignUpSlug | apps/web/app/onboarding/actions.ts:30-38 | The sign-up's slug is free among all tenants and the first free one. |
| Slugs.SlugShape | apps/web/lib/onboarding.ts:1-9 | A slug is non-empty, at most 48 characters, letters, digits and single dashes, not starting with one; it holds no wildcard. |
| Slugs.SlugIsJoin | apps/web/lib/onboarding.ts:1-9 | A slug is the runs of letters and digits of the name joined by dashes, of that the first 48 characters, and "workspace" when there are none. |
| Slugs.CandidateIs | apps/web/lib/onboarding.ts:12-16 | The slugs tried are the base and then the base with a dash and the numbers from 2 on. |
| Webhooks.SentAtMostFiveTimes | apps/api/voiceos_api/outgoing_webhooks.py:38-47 | Between manual retries no delivery is sent more than five times, in every run. |
| Webhooks.SendsAreAttempts | apps/api/voiceos_api/repository.py:3198-3224 | In every run `attempts` counts the claims since the last manual retry. |
| Webhooks.TickKeepsOk | apps/api/voiceos_api/routes.py:2581-2601 | No delivery is left in processing; a failed one has used five attempts, a retrying one has attempts left and a time. |
| Webhooks.TickUsesAttempts | apps/api/voiceos_api/routes.py:2581-2601 | Each claim uses up at least one remaining attempt, and none remain exactly when all deliveries are delivered or failed. |
| Webhooks.BackoffHolds | apps/api/voiceos_api/outgoing_webhooks.py:10-47 | After the k-th failed attempt the next waits at least the k-th delay. |
| Webhooks.ClaimsMeaning | apps/api/voiceos_api/repository.py:3198-3212 | Claimed are ready deliveries, once each and in order; all of them unless the limit is reached. |
| Webhooks.DeliveryResult | apps/api/voiceos_api/outgoing_webhooks.py:38-47 | Delivered exactly on a 2xx code, a retry time exactly when attempts are left. |
| WebhookEffects.OutcomeExactly | apps/api/voiceos_api/outgoing_webhooks.py:38-47 | The status and the exact next time after each attempt; the twelve-hour delay is never used. |
| WebhookEffects.ClaimsAreFirst | apps/api/voiceos_api/repository.py:3198-3212 | A ready delivery is left out only when the limit was reached by deliveries before it. |
| WebhookEffects.TickEffects | apps/api/voiceos_api/routes.py:2581-2601 | A tick makes one attempt at each delivery it claims, with its outcome, and touches nothing else. |
| WebhookEffects.EndsExactly | apps/api/voiceos_api/routes.py:2585-2601 | The three counts: answered with a 2xx code; others with attempts left; the rest. |
| WebhookEffects.EventEffects | apps/api/voiceos_api/repository.py:3187-3196 | Exactly one pending delivery is added for each hook of the tenant that is enabled and subscribed, in order. |
| WebhookEffects.RetryEffects | apps/api/voiceos_api/repository.py:3219-3224 | A manual retry makes the tenant's own delivery new again; any other changes nothing. |
| WebhookStore.WebhookRepository.ClaimWebhookDeliveries | apps/api/voiceos_api/repository.py:3198-3212 | The claiming loop on the records. |
| WebhookStore.WebhookRepository.OutgoingWebhookTick | apps/api/voiceos_api/routes.py:2581-2601 | Claim, send and settle each; the counts are those of the outcomes. |
| WebhookStore.WebhookRepository.QueueWebhookEvent | apps/api/voiceos_api/repository.py:3187-3196 | One pending delivery for every hook that wants the event. |
| WebhookStore.WebhookRepository.RetryWebhookDelivery | apps/api/voiceos_api/repository.py:3219-3224 | A manual retry starts over. |
| WhatsApp.StoredOnce | apps/api/voiceos_api/repository.py:3342-3356 | In every run each provider message id is stored at most once. |
| WhatsApp.ClaimedOnce | apps/api/voiceos_api/repository.py:3358-3370 | In every run each message is claimed at most once. |
| WhatsApp.OrdinalsConsecutive | apps/api/voiceos_api/repository.py:3372-3382 | A call's turns are numbered exactly 0 to n - 1 if and only if no operator message was written with a stale count. |
| WhatsApp.StepOrdinals | apps/api/voiceos_api/routes.py:2010-2019 | One completion keeps the numbering; one operator message keeps it exactly when its count is current. |
| WhatsAppEffects.IngestEffects | apps/api/voiceos_api/repository.py:3342-3356 | A message is stored exactly when it is new and its number active, as pending, in the first running conversation of the last day with its sender, or in a new one. |
| WhatsAppEffects.ClaimEffects | apps/api/voiceos_api/repository.py:3358-3370 | The first claimable messages up to the limit are put into processing, and nothing else changes. |
| WhatsAppEffects.CompletionEffects | apps/api/voiceos_api/repository.py:3372-3382 | First what the user said and then what the agent said, each if there is any; the message's end; the mark on the call; nothing else. |
| WhatsAppEffects.HandoffEffects | apps/api/voiceos_api/routes.py:2008-2019 | The operator's text is added to the conversation and the call is marked. |
| WhatsApp.WhatsAppRepository.IngestMessage | apps/api/voiceos_api/repository.py:3342-3356 | Stores a new message in the sender's running conversation of the last day, or in a new one. |
| WhatsApp.WhatsAppRepository.ClaimMessages | apps/api/voiceos_api/repository.py:3358-3370 | The claiming loop. |
| WhatsApp.WhatsAppRepository.CompleteMessage | apps/api/voiceos_api/repository.py:3372-3380 | Adds the turns there is text for, numbered from the current count, closes the message with its error, and marks the handoff on the call. |

## Left out

General
- Provider I/O, HTTP plumbing, authentication, encryption, the SQL engine and the user interface; every outside call is a step that may succeed or raise.
- Time comes from parameters; time zones, JavaScript coercions and property lookup, Unicode normalization and lower-casing are functions given from outside or applied before the model starts.
- Floating-point rounding: numbers are exact. Decimal rounding to whole numbers and to two and four places is modelled, half to even.
- Text is a sequence of Unicode scalar values; lone surrogates do not occur.
- Identifiers are counters or positions instead of random UUIDs.

Dialer
- Ticks run one at a time, as the deployment schedules them; a crash in the middle of a tick is not modelled.
- A malformed retry policy is not modelled; a malformed limit, weekday list or window is, each as a field that parsed or did not.
- A contact whose provisioning raised after the provider had dialed counts as failed, as in the code, not as dispatched.
- DialerRuns.RunWithin: assumes that no update revives a finished call, that calls started elsewhere respect the plan, and that an edited limit is not below the calls a campaign has; the service does not check these itself.
- DialerRuns.BoundedDialing: the bound is over the retry policies the run uses, since a policy may be edited while a campaign is paused.

Metering
- One subscription per tenant with a fixed plan; `report_usage` and `mark_usage_reported` happen together or not at all; Stripe's hourly idempotency key and the phone quantity itself are not modelled.

Idempotency
- Keys do not expire, and requests without a key, which skip the store, are not modelled.
- The `end_user` and `livekit_room` writes of a request are part of the steps before its call is ready.
- OutboundCalls.OutboundCallHandler.CreateOutboundCall: one request at a time, over the in-memory store; interleavings are the steps of `Idempotency`.

Template runtime
- ExprRoundTrip.RoundTrip: string literals are free of equality signs, exclamation marks and brackets; `StringLiteralExact` gives the exact condition for literals of any content.
- CssImportant.ScanUrlBody: the second half of one function of the source, split off with `SplitDeclarations` as a method of its own.

Chunks
- Chunker.ChunksAreWindows: for sizes from 2 on; `SingleCharacterWindows` shows why. The service only accepts sizes from 100 on. Negative sizes and overlaps are not modelled.

Versions
- Draft fields are one map of texts; the validation before publishing and the order of the tools a call gets are not modelled. Tool records are looked up when a call starts, so editing a tool changes what published versions run with.

Breaker
- A call runs without interference from other calls on the same breaker; the sleep between attempts only moves the clock.

Call quality
- Interruption metrics and the cost summary are sums without further structure.

Flows
- Malformed shapes of a process are reduced to items that are no states and transitions that are no objects; `match_intent` is a function from utterances to intents.

Webhooks and WhatsApp
- Signing, secrets and message bodies; the order in which Postgres picks deliveries; the answer produced for a WhatsApp message. End users are identified by their phone number.
- Ticks run one at a time; two overlapping ticks or a crash between claim and update would leave a delivery in processing.
