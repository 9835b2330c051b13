# RPC Plane: a verified model of the core

RPC Plane is a Solana RPC proxy: it spreads requests over several providers, fails over between
them, races them, scores their health, breaks circuits, caps rates, decodes the transactions it
forwards, analyzes history lookups, and reloads its configuration while running. This project models
the parts of it that are state machines, indexes or wire formats, and proves what they promise, for
every input and over every run.

| modules | what they model |
|---|---|
| `Wire`, `Fees`, `Legacy`, `V1`, `Transactions` | the transaction decoder: cursor, compact-u16, legacy/v0, v1 (SIMD-0385), fee arithmetic |
| `LegacyCodec`, `V1Codec` | the wire formats as encoders, and the proofs that decoding inverts them |
| `ProgramKeys`, `LegacyMeaning`, `V1Meaning` | what the decoder says of a transaction, by the literal keys, tags, offsets and allotments |
| `Historical`, `Analyzer`, `AnalyzerRuns`, `Residencies`, `AnalyzerJobs` | the getTransaction analyzer: state map, least-recently-seen index, lifecycle, windows, flushes |
| `AnalyticsQueue`, `Pipeline` | the bounded queue in front of it (byte permits, channel, drop counters), and both as one system |
| `Outcomes`, `Failover`, `FailoverRuns`, `FailoverReference`, `FailoverReplies` | classification of replies, and sequential failover, down to the literal statuses and codes |
| `Broadcast`, `BroadcastReplies` | the race over all providers, the drain of its stragglers, and which failure is returned |
| `ProbeRing`, `Drift`, `ProbeHistory` | probe rounds, the four-slot ring of round tips, and slot drift measured while probes go on |
| `Circuit`, `CircuitHistory`, `Score`, `TokenBucket` | outcome window, circuit breaker, health score, rate limiter |
| `Routing`, `RoutingOrder` | the routing decision under its four strategies |
| `Reload` | hot-reload reconciliation of clients, health entries and limiters |
| `Common` | `Option` and `Result` |

Code that updates things in place is a class or a method with loops (`Cursor`, `AnalyzerCore`,
`RoundTips`, `Limiter`, `ProviderHealth`, `Fleet`, the decoder, `Sequential`, `BroadcastRace`,
`Route`); each method is proved equal to a function on values, and the theorems are about those
functions. Concurrent parts (the queue, the probe loops) are transition systems, and a theorem about
them holds in every interleaving. Replies, tokens, clocks, random rolls, arrival orders and map
visiting orders are arguments or arbitrary choices, so every theorem holds for all of them.

## Where the code and its documentation disagree

The model follows the code. Each disagreement has a concrete input and an exact condition.

- `src/health.rs:486-488` and `src/health.rs:713-714` say a rate limit never opens the circuit.
  Pruning may drop old successes just before the rate is checked, so it can: `Circuit.ThrottleCanOpen`,
  and exactly when: `Circuit.ThrottleOpensExactlyWhen`.
- `README.md:153` says writes do not use the read strategy and go out one at a time unless
  `broadcast_writes` is set. Under `parallel_race` they are fanned out: `RoutingOrder.RacedWrite`, and
  exactly when not: `RoutingOrder.SingleWriteExactly`. With `broadcast_writes` off they always use the
  read strategy: being a write makes no difference at all (`RoutingOrder.WriteClassIgnored`); with it on
  they never do (`RoutingOrder.BroadcastWriteIgnoresStrategy`).
- `max_job_bytes` reads as the size up to which a job is accepted. A job within it may need more
  4096-byte units than there are permits, and is then dropped in every run:
  `AnalyticsQueue.PermittedJobNeverFits`. Exactly when a job can ever be admitted:
  `AnalyticsQueue.EverAdmittedExactly`.
- The comment at `src/health.rs:1102-1103` says a snapshot never sees a slot without the round it
  belongs to. A snapshot reads each provider twice, with the ring copied in between; a probe that
  reports and updates after the copy leaves a slot above the tip it is compared with, and a drift of 0
  by saturation: `Drift.SlotWithoutItsRound`. Exactly when the drift is the true gap:
  `Drift.DriftExactExactly`. It always is for a slot not overwritten between the two reads:
  `Drift.DriftIsExact`.
- The comment at `src/proxy.rs:612-614` says the first history miss is returned if none of the
  full-history providers answers. A last reply that holds no answer may be returned instead:
  `FailoverReference.FirstMissNotReturned`, and exactly when the first miss is returned:
  `FailoverReference.FirstMissReturnedExactly`.
- The comment at `src/proxy.rs:606-608` is about providers skipped before dispatch. Skipping them
  changes nobody's turn (`FailoverReference.UnaskableDoNotMatter`), but it can change the body
  returned to a history lookup: `FailoverReference.UnaskableCanChangeMiss`, and exactly when:
  `FailoverReference.UnaskableChangeResponseExactly`.
- The entry just inserted is not always safe from eviction, when timestamps tie or run backwards
  (requests read the clock before they are queued, at `src/historical.rs:175-186`):
  `AnalyzerRuns.ObservedKeyEvicted`, and exactly when it stays: `AnalyzerRuns.ObservedKeySurvives`.

## Model

| member | source | states |
|---|---|---|
| Wire.ShortvecRoundTrip | src/tx.rs:325-341 | the canonical compact-u16 encoding of every value in 0..65535 is read back as that value, leaving the bytes after it |
| Wire.ShortvecCanonical | src/tx.rs:325-341 | whatever the reader accepts is the canonical encoding of the value it returns: one byte string per value |
| Wire.LittleEndianRoundTrip | src/tx.rs:183-190 | a little-endian word of any width is read back as the value written |
| Wire.Cursor.constructor | src/tx.rs:302-304 | a new cursor is in bounds with all bytes unread |
| Wire.Cursor.Take | src/tx.rs:310-315 | either exactly the next bytes, advancing past them, or Unparsed; the cursor never leaves the buffer |
| Wire.Cursor.Byte | src/tx.rs:306-308 | the next byte or Unparsed, in bounds |
| Wire.Cursor.Skip | src/tx.rs:317-319 | succeeds exactly when enough bytes remain, and then leaves the bytes after them |
| Wire.Cursor.Remaining | src/tx.rs:321-323 | the number of unread bytes |
| Wire.Cursor.ReadShortvec | src/tx.rs:325-341 | the loop reads exactly what the compact-u16 parser of the two theorems above reads |
| Fees.PriorityFeeIsCeiling | src/tx.rs:198-209 | the legacy fee is min(2^64-1, ceil(min(limit, 1.4M) x price / 10^6)), with the ceiling characterised as the least upper bound, not by the program's division |
| Fees.CeilingExists | src/tx.rs:205-209 | such a ceiling exists for every limit and price, so the fee is always determined |
| Fees.NoSaturation | src/tx.rs:206-207 | neither 128-bit saturating operation ever saturates for a 64-bit price |
| Fees.DerivedPriceRecoversFee | src/tx.rs:278-289 | charging the legacy rule at v1's derived uncapped price gives the v1 fee back exactly up to 10^6 units and at most one lamport short up to 1.4M; exactly when less than a lamport was rounded away |
| Fees.DerivedPriceLosesALamport | src/tx.rs:283-287 | the lamport is really lost for a fee of one lamport at the maximum limit |
| Legacy.ReadInstruction | src/tx.rs:154-162 | reads one instruction as the parser does, with the same errors and bytes left |
| Legacy.ReadCharge | src/tx.rs:153-196 | one turn of the instruction loop: the instruction and its charge to the budget |
| Legacy.ReadInstructions | src/tx.rs:153-196 | the loop collects exactly the budget of the recursive parser, stopping at the same error |
| Legacy.ReadBody | src/tx.rs:148-196 | keys, blockhash and instructions as the parser reads them |
| Legacy.ReadMessage | src/tx.rs:133-146 | version byte and header: above 0x80 unsupported, 0x80 versioned, below legacy |
| Legacy.ReadLegacy | src/tx.rs:125-196 | the whole legacy/v0 scan equals the parser the theorems are about |
| Legacy.ProgramIdInjective | src/tx.rs:163-174 | comparing program ids as numbers is comparing them byte by byte |
| Legacy.ParseLegacyExtends | src/tx.rs:125-196 | appended bytes never change a result other than Unparsed; they are left over |
| LegacyCodec.ChargeAllFails | src/tx.rs:173-195 | the budget fold fails, with InvalidBudget, exactly on missing, short or duplicate budget data |
| LegacyCodec.ChargeAllCollects | src/tx.rs:149-196 | when it succeeds it holds the declared limit and price, and the default is the plain sum of the defaults |
| LegacyCodec.LegacyRoundTrip | src/tx.rs:125-220 | for every well-formed legacy or v0 transaction, parsing its encoding yields the declared limit, price, fee, counts and version, or InvalidBudget exactly for bad budget data |
| LegacyCodec.PacketFirstByte | src/tx.rs:107-124 | within 1232 bytes the first byte of a legacy encoding is below 0x80, so it is never taken for v1 or later |
| LegacyCodec.LookupsLast | src/tx.rs:153-196 | address-table lookups are the tail the decoder leaves unread |
| ProgramKeys.BuiltinMeans | src/tx.rs:28-57 | a 32-byte key is one of the eight builtin programs' byte arrays exactly when the decoder counts it as builtin |
| ProgramKeys.BudgetMeans | src/tx.rs:22-25 | a 32-byte key is the ComputeBudget byte array exactly when the decoder takes it for that |
| LegacyMeaning.LegacyDecodesAsItSays | src/tx.rs:107-220 | every legacy or v0 transaction of at most 1232 bytes decodes to what its bytes say: the limit in bytes 1-4 of the tag-2 data, or 3,000 per builtin and 200,000 per other instruction up to 1,400,000; the price in bytes 1-8 of the tag-3 data; the fee rounded up in millionths; counts and version; or InvalidBudget exactly for budget data missing, short or repeated |
| V1.ReadPreamble | src/tx.rs:238-246 | the fixed fields, in wire order, as the parser reads them |
| V1.ReadConfig | src/tx.rs:248-256 | the loop over 32 mask bits stores exactly the words of the parser |
| V1.ReadHeader | src/tx.rs:264-271 | one instruction header: program index checked, payload length returned |
| V1.ReadHeaders | src/tx.rs:263-271 | the loop adds up the payload lengths of all headers |
| V1.ReadTail | src/tx.rs:248-272 | config, fee pairing, headers and payload, in that order, with the same errors |
| V1.ReadV1 | src/tx.rs:237-276 | the whole v1 scan, accepted only if the signatures fill the rest exactly |
| V1.ParseV1Extends | src/tx.rs:237-272 | appended bytes never change what was parsed before the signatures |
| V1.AcceptedV1IsPrefixFree | src/tx.rs:272-276 | every strict prefix and every strict extension of an accepted v1 byte string is Unparsed |
| V1Codec.MaskBit | src/tx.rs:249 | a mask bit is set exactly when its config slot holds a word |
| V1Codec.ConfigWordPosition | src/tx.rs:248-256 | each config word sits at four times the popcount of the lower mask bits |
| V1Codec.ConfigRoundTrip | src/tx.rs:248-256 | parsing the encoded words yields the fee halves and limit of their slots, from any bit on |
| V1Codec.HeadersRoundTrip | src/tx.rs:263-271 | parsing encoded headers yields the total payload length |
| V1Codec.DerivedPriceIsPrice | src/tx.rs:283-287 | the derived price is the fee per unit in micro-lamports rounded down, capped at 2^64-1, and 0 for a zero limit |
| V1Codec.V1RoundTrip | src/tx.rs:237-294 | for every well-formed v1 transaction, decoding its encoding yields the declared fee, limit, price and counts, or InvalidBudget exactly for half a fee |
| V1Codec.UnknownProgramRejected | src/tx.rs:263-271 | an instruction whose program index is not below the address count is Unparsed, unless half a fee was found first |
| V1Meaning.V1DecodesAsItSays | src/tx.rs:237-294 | every v1 transaction of at most 4096 bytes starts with 0x81 and decodes to what words 0, 1 and 2 say, or to the one error that applies |
| Transactions.DecodeTransaction | src/tx.rs:118-220 | the first-byte dispatch and both decoders equal the specified verdict |
| Transactions.DecodePayload | src/tx.rs:107-116 | the length gate in front of it: 4096 bytes for v1, 1232 otherwise |
| Transactions.LengthAndVersionGates | src/tx.rs:107-124 | over 4096 bytes, or over 1232 without the 0x81 prefix, is Unparsed; a first byte of 0x82 or more is Unsupported |
| Transactions.UnknownVersionUnsupported | src/tx.rs:133-141 | a message version byte above 0x80 is Unsupported, whatever follows |
| Transactions.LegacyPayloadRoundTrip | src/tx.rs:107-220 | every legacy or v0 transaction that fits a packet decodes, through gate and dispatch, to exactly what it declares |
| Transactions.V1PayloadRoundTrip | src/tx.rs:107-124 | every v1 transaction within 4096 bytes decodes, through gate and dispatch, to exactly what it declares |
| Transactions.FormatsDisjoint | src/tx.rs:107-124 | within the length gate no byte string encodes both formats |
| Transactions.VerdictSurvivesAppend | src/tx.rs:118-220 | outside v1 every verdict but Unparsed survives appended bytes |
| Transactions.AcceptedV1StandsAlone | src/tx.rs:237-276 | strict prefixes and extensions of an accepted v1 transaction get the verdict Unparsed |
| Transactions.LegacyPrefixes | src/tx.rs:118-196 | a prefix of a valid packet is Unparsed exactly when it ends before its instructions do |
| Transactions.CutInsideMessage | src/tx.rs:310-315 | any cut before the parser's last byte is Unparsed |
| Historical.Position | src/historical.rs:751-776 | the first bound above the value, or one past the last |
| Historical.SlotAgeBucket | src/historical.rs:751-758 | nine buckets with their inclusive upper ages |
| Historical.PollsBucket | src/historical.rs:760-769 | six buckets: 0, 1, 2, 3-5, 6-10 and more polls |
| Historical.TimeToFoundBucket | src/historical.rs:425-426 | six buckets with upper bounds of 1, 2, 5, 15 and 60 seconds |
| Historical.ReuseBucket | src/historical.rs:436-439 | five buckets with upper bounds of 300, 3,600, 86,400 and 172,800 seconds |
| Historical.FirstExists | src/historical.rs:505-517 | a nonempty index has a first stamp |
| Historical.Oldest | src/historical.rs:514-520 | a resident key whose (last seen, fingerprint) precedes all others |
| Historical.OldestUnique | src/historical.rs:514-520 | there is only one such key |
| Analyzer.IndexFirst | src/historical.rs:514-520 | the first stamp of an agreeing index belongs to the oldest entry of the map |
| Analyzer.AnalyzerCore.constructor | src/historical.rs:273-284 | starts empty, with index and map agreeing and zero windows |
| Analyzer.AnalyzerCore.EvictOldest | src/historical.rs:514-541 | keeps the index equal to the stamps of the map, removes exactly the oldest entry and counts it under its reason and commitment |
| Analyzer.AnalyzerCore.Expire | src/historical.rs:505-512 | the loop terminates and equals oldest-first expiry; the index still agrees |
| Analyzer.AnalyzerCore.Transition | src/historical.rs:379-457 | the new state is the specified lifecycle, counters and trimming; the eviction loop terminates because the index agrees |
| Analyzer.AnalyzerCore.ProcessBatch | src/historical.rs:297-316 | every recognised call under its commitment, the rest up to the eligible count under Unknown |
| Analyzer.AnalyzerCore.ProcessSingle | src/historical.rs:318-351 | each of the error, null and found paths leaves the specified windows and state |
| Analyzer.AnalyzerCore.Process | src/historical.rs:286-295 | expiry first, then the job by its class |
| Analyzer.AnalyzerCore.Flush | src/historical.rs:547-583 | the events sent and windows left are the specified ones, in window order |
| AnalyzerRuns.ExpireRemovesExactlyStale | src/historical.rs:505-512 | expiry leaves exactly the entries seen within the TTL, unchanged |
| AnalyzerRuns.ExpireCountsExactlyStale | src/historical.rs:514-541 | each expired entry is counted once in the window it was last seen in, unresolved nulls separately, and nothing else changes |
| AnalyzerRuns.TransitionEvictsAtMostOne | src/historical.rs:444-457 | within capacity, a transition is the map update followed by removal of the least entry if over capacity, and capacity is kept |
| AnalyzerRuns.CapacityEvictionCounted | src/historical.rs:514-541 | the entry removed is counted as one capacity eviction in the window it was last seen in, unresolved nulls separately, and nobody else is |
| AnalyzerRuns.ObservedKeySurvives | src/historical.rs:453-456 | the key just observed stays exactly if it was resident, there was room, or another entry precedes it |
| AnalyzerRuns.ObservedKeyEvicted | src/historical.rs:453-456 | a run at capacity 1 in which an observation that carries an earlier time evicts its own key |
| AnalyzerRuns.EmptyWindowIsZero | src/historical.rs:614-618 | a balanced window that counts as empty is zero in every counter, so skipping it loses nothing |
| AnalyzerRuns.ObservationKeepsBalance | src/historical.rs:332-477 | one observation keeps every conservation law of its window |
| AnalyzerRuns.JobIsRun | src/historical.rs:286-351 | a processed job is an expiry and at most one more step, so theorems over step sequences cover every run of the worker |
| AnalyzerRuns.JobCountsItsCalls | src/historical.rs:286-351 | however request and response parse, a job is counted as its eligible calls, never fewer |
| AnalyzerRuns.FlushEmptiesAll | src/historical.rs:561-583 | after a flush every window is zero |
| AnalyzerRuns.FlushSendsAll | src/historical.rs:561-583 | what the events of a flush carry is everything the windows held, plus the dropped calls |
| AnalyzerRuns.RunConserves | src/historical.rs:286-583 | after every run, over windows and sent events: every call counted once, logical adds exactly the reported drops, first observations = residents + evictions + expirations, every split and histogram sums, capacity holds |
| Residencies.LifecycleRefinesHistory | src/historical.rs:387-442 | in every run each resident key is NullSeen exactly if all its observations since insertion were null, with their count and first time, else Found with the time of the latest find |
| Residencies.ReflectionIsUnique | src/historical.rs:387-442 | that description fits one lifecycle only |
| Residencies.HistogramsFollowResidency | src/historical.rs:391-442 | which samples one observation adds to its window, read off the residency before it: polls at the first find, time-to-found measured from the first null, reuse measured from the latest find |
| Residencies.TransitionsFollowResidency | src/historical.rs:387-477 | which of the six transitions one observation is counted as, read off the residency before it |
| Residencies.OnlyObservationsSample | src/historical.rs:297-361 | expirations, errors and batches add no sample to any histogram |
| Residencies.ResidencySamples | src/historical.rs:387-442 | over a whole residency, in every run: one polls sample if it was ever found and none otherwise, one time-to-found sample if it was found after nulls, one reuse sample per find after the first |
| Residencies.OtherHistogramsUntouched | src/historical.rs:543-545 | windows of other commitments get no sample |
| AnalyzerJobs.FoundJob | src/historical.rs:318-503 | a 2xx with a result counts one find and one slot age against the tip of its own commitment; a key that stays resident is then found as of the job |
| AnalyzerJobs.NullJob | src/historical.rs:318-442 | a 2xx with a null result counts one null; the key's nulls add up from its first, and a find survives |
| AnalyzerJobs.RpcErrorJob | src/historical.rs:679-691 | a status outside 2xx or an error member counts one RPC error and touches no key |
| AnalyzerJobs.ParseErrorJob | src/historical.rs:683-697 | a 2xx that is no object, or has no result, counts one parse error and touches no key |
| AnalyzerJobs.UnreadableRequestJob | src/historical.rs:319-330 | so does a request that is no JSON, under Unknown, or has no fingerprint, under its own commitment |
| AnalyzerJobs.BatchJob | src/historical.rs:297-316 | every recognised call of a batch counts under its own commitment, the missing ones under Unknown, and nothing else changes |
| AnalyzerJobs.FlushSendsExactly | src/historical.rs:547-583 | a flush sends one event per window with something to report, in the order of the commitments, with its contents, the drop counters on Unknown, the entries and the capacity, and no other |
| AnalyticsQueue.PermitsAlwaysConserved | src/historical.rs:124-125 | in every interleaving held units and free permits add up to the permit count |
| AnalyticsQueue.BytesInFlightBounded | src/historical.rs:144-188 | so bytes in flight never exceed max_queued_bytes |
| AnalyticsQueue.EveryCallCountedOnce | src/historical.rs:144-200 | every eligible call offered is processed, in flight, or dropped and counted: exactly one of these |
| AnalyticsQueue.StepsDoWork | src/historical.rs:144-240 | only a new offer makes work; every other step but a flush does exactly one unit of it |
| AnalyticsQueue.NeverStuck | src/historical.rs:210-240 | while work is left some step of it can be taken |
| AnalyticsQueue.EveryRunCanDrain | src/historical.rs:210-240 | every reachable state can drain without new offers |
| AnalyticsQueue.DrainedRunAccounts | src/historical.rs:144-240 | once drained, offered calls = processed + reported as dropped, and all permits are back |
| AnalyticsQueue.EveryDropHasOneReason | src/historical.rs:190-200 | under concurrent flushes each dropped job raises the counter of its own reason exactly once |
| AnalyticsQueue.IdleQueueAdmits | src/historical.rs:161-173 | in every state with all permits free, a permitted job is admitted exactly when its units are at most the permits |
| AnalyticsQueue.AllPermittedJobsFit | src/historical.rs:124-173 | in every such state, all permitted jobs fit exactly when one of the largest size does |
| AnalyticsQueue.EverAdmittedExactly | src/historical.rs:124-173 | a job is admitted in some state of some run exactly if its bytes are within the job limit, within the whole 4096-byte units of the budget, of which there is at least one, and within 2^32 - 1 units; otherwise it is dropped in every run |
| AnalyticsQueue.PermittedJobNeverFits | src/historical.rs:124-173 | a configuration under which a permitted job is dropped in every run, for want of permits |
| AnalyticsQueue.QueueNeverOverflows | src/historical.rs:123-123 | the channel never holds more jobs than its capacity |
| AnalyticsQueue.JobsKeepTheirOrder | src/historical.rs:184-224 | first in, first out: in every run the jobs sent are those taken, then those still queued |
| AnalyticsQueue.IneligibleIgnored | src/historical.rs:152-155 | a request without eligible calls leaves no trace |
| AnalyticsQueue.ResetReportedOnce | src/historical.rs:127-127 | the one reset of a start is reported exactly once |
| Pipeline.QueueHalf | src/historical.rs:144-240 | the queue's part of every run of the whole system is a run of the queue |
| Pipeline.AnalyzerHalf | src/historical.rs:210-240 | the analyzer's part is a run of the analyzer, over exactly the calls processed and the drops reported |
| Pipeline.EveryOfferedCallAccounted | src/historical.rs:144-583 | end to end, in every interleaving: logical calls in windows and sent events, plus those under way, are the calls offered plus any a batch recognises beyond its eligible count |
| Pipeline.DrainedSystemAccounts | src/historical.rs:144-583 | once drained, windows and events count every call offered |
| Pipeline.EveryDropReportedOnce | src/historical.rs:190-583 | in every interleaving, drops reported under a reason by sent events, plus those on their way to one, are exactly the jobs dropped for that reason |
| Outcomes.CodeKindsDisjoint | src/router.rs:59-110 | client, retryable and history-gap codes never overlap, so classification does not depend on their order |
| Outcomes.LegOutcomeMeaning | src/proxy.rs:291-339 | each outcome by the literal statuses and codes that lead to it, history misses included |
| Outcomes.HealthEffects | src/proxy.rs:378-383 | success and failure feed the breaker, a 429 only the score, nothing else touches health |
| Failover.Dispatch | src/proxy.rs:684-860 | every branch of the reply handling records the outcome a broadcast leg of the same reply records, and leads to the specified verdict |
| Failover.Sequential | src/proxy.rs:587-907 | the loop equals the specified run, and analytics finish exactly once with the status and body returned |
| FailoverRuns.RunConcludes | src/proxy.rs:625-878 | the loop invariant holds from any reachable point to the end of the run |
| FailoverRuns.EveryRunConcludes | src/proxy.rs:605-907 | every run: at most min(max_retries+1, n) forwards, in list order, each once, only Full after the first miss, one record per forward, failovers linking consecutive forwards, and one of these ends: an answer; a retryable error with the budget spent; a miss with the budget spent or no Full provider behind it; else, on exhaustion, the first miss, else the last retryable error, else a 502 |
| FailoverRuns.MissReturnedOnlyWhenExhausted | src/proxy.rs:748-890 | a miss goes back only if the budget is spent or every later Full provider was shed, unusable, or asked without answering |
| FailoverReference.RunAsksReference | src/proxy.rs:625-677 | the loop asks exactly the providers of a simple walk down the list, in that order |
| FailoverReference.UnaskableDoNotMatter | src/proxy.rs:606-665 | adding or deleting shed, client-less or unconfigured providers leaves the providers asked, outcomes recorded and failovers unchanged |
| FailoverReference.ExitFromLastWord | src/proxy.rs:748-800 | a reply without an answer is returned as it came exactly when nothing can follow it |
| FailoverReference.CutShortIsLastWord | src/proxy.rs:748-800 | whether a run ends that way is decided by the list and the budget alone, by the reference walk |
| FailoverReference.FinishOfRun | src/proxy.rs:748-907 | the response of every run, read off the providers asked: an answer, else the last word, else the first miss, else the last retryable error, else a 502 |
| FailoverReference.FirstMissReturnedExactly | src/proxy.rs:612-614 | when nobody answers, the first miss is returned exactly unless the run is cut short on a reply that reads differently |
| FailoverReference.FirstMissNotReturned | src/proxy.rs:748-890 | a list on which it is not |
| FailoverReference.UnaskableChangeResponseExactly | src/proxy.rs:748-890 | such providers change the response exactly when they change whether anything can follow the last reply, and that reply differs from the remembered miss |
| FailoverReference.UnaskableDoNotChangeResponse | src/proxy.rs:606-890 | outside history lookups they never change the response |
| FailoverReference.UnaskableCanChangeMiss | src/proxy.rs:748-890 | a history lookup whose response a shed provider at the end of the list changes |
| FailoverReplies.NoAnswerMeans | src/proxy.rs:690-800 | which replies are inconclusive, by literal status and code: transport errors, 429 and 500-504, history misses, and -32005, -32603, -32014, -32016 |
| FailoverReplies.ConclusiveReplyReturned | src/proxy.rs:690-860 | in every run, any other reply ends it and goes back with its own status, or 200 for a 2xx, acknowledged only without an error member |
| FailoverReplies.ClientErrorReturned | src/proxy.rs:802-831 | a 2xx with one of the nine client codes is returned at once, from either depth |
| FailoverReplies.ResultReturned | src/proxy.rs:832-860 | a result is returned at once, from either depth, and acknowledged by its provider |
| FailoverReplies.StatusPassedThrough | src/proxy.rs:712-743 | a status that is neither 2xx nor retryable passes through at once |
| FailoverReplies.RetryableStatusNeverReturned | src/proxy.rs:684-709 | a 429 or 500-504 never reaches the client, except as the 502 the proxy makes itself, with code -32603, exactly when everybody failed |
| FailoverReplies.MissFailsOver | src/proxy.rs:745-763 | a history miss, by literal codes, is never the response while attempts remain and a usable Full provider behind it has not been asked: a later conclusive reply is |
| FailoverReplies.UsableProvidersAsked | src/proxy.rs:626-665 | only configured providers with a client and not at their cap are asked; and if the list runs out before the attempts, all of those that may be |
| FailoverReplies.FailoverReasons | src/proxy.rs:666-677 | every failover gives the one reason that the reply of the provider it leaves explains |
| FailoverReplies.ShedExactly | src/proxy.rs:655-665 | the providers logged as rate limited are exactly those at their cap that the walk came to, in order |
| Broadcast.Launch | src/proxy.rs:945-990 | exactly the usable providers get a leg, in list order |
| Broadcast.DrainStragglers | src/proxy.rs:1158-1182 | the drain records every leg that did not panic, with its outcome |
| Broadcast.BroadcastRace | src/proxy.rs:912-1098 | for any arrival order of the launched legs, loop, drain and fallback equal the specified race, with one finish carrying the status and body returned |
| Broadcast.EveryLegRecordedOnce | src/proxy.rs:1006-1063 | in every arrival order each leg that did not panic is recorded exactly once across loop and drain, with the outcome sequential failover would record |
| Broadcast.WinMeans | src/proxy.rs:322-339 | a leg wins exactly on a 2xx without an error member that is not a history miss |
| Broadcast.EarliestSuccessOrBestFailure | src/proxy.rs:1006-1098 | any success means the earliest success answers, whatever failed or missed before; otherwise the earliest reply of maximal rank; otherwise a 502 |
| Broadcast.SuccessIsOrderIndependent | src/proxy.rs:1006-1034 | whether a race succeeds does not depend on the arrival order |
| Broadcast.FailureRankIsOrderIndependent | src/proxy.rs:1006-1152 | two races over the same legs that nobody wins return replies of the same rank, or both the synthetic 502 |
| BroadcastReplies.FailurePreference | src/proxy.rs:1006-1152 | when nobody wins: a deterministic JSON-RPC error if there is one, else a history miss, else one of the four transient codes, else a bare HTTP error, else what came; of those the earliest, with its own status |
| BroadcastReplies.NobodyReplied | src/proxy.rs:931-943 | without any reply the proxy answers 502, and without any provider 503, both with code -32603 |
| BroadcastReplies.RecordedAroundTheAnswer | src/proxy.rs:1006-1182 | the loop records what arrives up to the first success, the drain what arrives after it |
| BroadcastReplies.ExactlyTheUsableRecorded | src/proxy.rs:945-1063 | in every arrival order exactly the configured providers with a client, not at their cap, that did not panic are recorded, each once with its outcome |
| ProbeRing.RoundTips.constructor | src/health.rs:327-328 | four empty cells |
| ProbeRing.RoundTips.Report | src/health.rs:330-342 | the in-place update changes one cell as specified and no other |
| ProbeRing.RoundTips.Get | src/health.rs:344-349 | the tips of a round, if its cell still holds that round |
| ProbeRing.RingRefinesLog | src/health.rs:327-350 | a round is present exactly when it was reported and no larger round congruent mod 4 was, and then holds the per-commitment maximum of every report made for it |
| ProbeRing.RingIgnoresOrder | src/health.rs:327-350 | the content depends only on the set of reports, not on their order or repetition |
| Drift.LatestTips | src/health.rs:975-984 | in any visiting order the tips are the attained per-commitment maxima of the slots read and the reference |
| Drift.RunKeeps | src/health.rs:1096-1108 | at every point of every interleaving of probes, updates, reference probes, additions and removals, each stamped slot was reported for its round and the ring is the replay of the log |
| Drift.DriftIsExact | src/health.rs:968-1005 | in every interleaving with the reads of a snapshot: a slot not overwritten between the two reads of its provider is at most the tip it is compared with, so its drift is the exact gap; its round was reported before the ring was copied, and while the copy holds it the gap is to the best of its reports |
| Drift.DriftExactExactly | src/health.rs:566-569 | for any slot measured, drift is exact exactly if something collected had reached the slot: a report of its round before the copy if the copy holds the round, otherwise a slot read in the pass |
| Drift.SlotWithoutItsRound | src/health.rs:968-1005 | a run in which a probe between the copy and the second read makes drift saturate |
| Drift.FallbackMeansOvertaken | src/health.rs:327-350 | at every point of a run, a stamped slot whose round is no longer in the ring was overtaken by a round at least four later |
| Drift.LatestTipMeansOvertaken | src/health.rs:367-379 | a snapshot compares a stamped slot that was not overwritten between its reads with the latest tip only if a round at least four later was reported before the copy |
| Drift.WorstDriftMeans | src/health.rs:558-563 | the drift scored is the largest at any commitment with a slot, and absent exactly without any |
| ProbeHistory.SlotIsLastStored | src/health.rs:703-707 | at every point of every run, a provider's slot and round at each commitment are those of its loop's last stored answer that carried one, on the grid or off it |
| ProbeHistory.ReferenceIsLastStored | src/health.rs:1199-1206 | and the reference's slot is that of its last stored answer that carried one |
| ProbeHistory.EntriesFollowSteps | src/health.rs:858-913 | the providers listed are those added and not removed since, each with the loop it was added with |
| ProbeHistory.LogIsReports | src/health.rs:1102-1106 | what the ring is a replay of is exactly the answers with a round, in order |
| ProbeHistory.LatestIsAtLeastStored | src/health.rs:975-984 | the latest tip of a snapshot is at least the last answer the reference, and every listed provider, had stored when it was read |
| ProbeHistory.ReferencePinsDrift | src/health.rs:566-569 | a provider sampled off the grid drifts by at least its gap to the reference |
| TokenBucket.Limiter.constructor | src/health.rs:55-64 | starts full |
| TokenBucket.Limiter.Refill | src/health.rs:67-73 | accrues rate times elapsed time up to capacity |
| TokenBucket.Limiter.TryAcquire | src/health.rs:76-84 | grants exactly when a whole token is there, and spends it |
| TokenBucket.Limiter.HasCapacity | src/health.rs:87-90 | says what an acquire at the same time would, spending nothing |
| TokenBucket.Limiter.Reconfigure | src/health.rs:95-101 | new rate and capacity, token level kept up to the new ceiling |
| TokenBucket.GrantsBounded | src/health.rs:67-101 | over any run of acquires, peeks and reconfigures, grants never exceed starting tokens plus the sum of rate times elapsed time, and 0 <= tokens <= capacity |
| TokenBucket.GrantsAtFixedCap | src/health.rs:55-90 | at a fixed cap at most max_rps x (1 + elapsed) grants |
| TokenBucket.PeeksInvisible | src/health.rs:87-90 | inserting or removing peeks anywhere never changes an acquire's result |
| TokenBucket.GrantedAfterWait | src/health.rs:67-84 | after any run, an acquire is granted once a whole token has accrued since the last operation |
| TokenBucket.WaitForOneToken | src/health.rs:67-73 | which at a fixed cap takes at most 1 / max_rps seconds |
| TokenBucket.BurstIsCap | src/health.rs:55-84 | a new limiter grants exactly its cap at once |
| TokenBucket.ReconfigureKeepsLevel | src/health.rs:95-101 | a new cap neither hands out tokens nor takes any that fit under it |
| Circuit.ProviderHealth.constructor | src/health.rs:447-457 | starts closed with an empty window |
| Circuit.ProviderHealth.PruneWindow | src/health.rs:459-469 | the loop drops exactly the leading outcomes before the cutoff |
| Circuit.ProviderHealth.PushSample | src/health.rs:503-536 | window, streak and latency average after one outcome; a throttle touches only the window |
| Circuit.ProviderHealth.ApplyCircuitTransitions | src/health.rs:710-751 | the breaker moves as specified and nothing else changes |
| Circuit.ProviderHealth.RecordOutcome | src/health.rs:673-688 | one recorded outcome is the push followed by the judgement |
| Circuit.WindowIsTimeFilter | src/health.rs:459-536 | after every record the pruned deque is the time filter of the whole history |
| Circuit.StreakIsTrailingFailures | src/health.rs:503-536 | the counter is the trailing run of failures in the throttle-erased history |
| Circuit.BreakerInvariant | src/health.rs:710-751 | in every run, Open exactly when an opening time is stored, and Closed only below the streak threshold |
| Circuit.BreakerStep | src/health.rs:710-751 | which moves one record can make from each state, with the exact condition for leaving Open |
| Circuit.OpenClosesOnlyThroughHalfOpen | src/health.rs:725-743 | between an Open and a later Closed there is a cooldown that passed into HalfOpen and, after it, a recorded success |
| Circuit.FailureFreeNeverOpens | src/health.rs:710-723 | failure-free runs never leave Closed exactly for configurations with circuit_open_failures >= 1 and a nonnegative threshold |
| Circuit.ThrottleOpensExactlyWhen | src/health.rs:682-723 | a throttle opens a closed circuit exactly when surviving failures over surviving outcomes plus one exceed the threshold |
| Circuit.ThrottleCanOpen | src/health.rs:510-723 | a run in clock order in which a throttle does |
| Circuit.ThrottleHarmless | src/health.rs:486-499 | if pruning drops nothing but failures it never does |
| Circuit.HardRateAtMostErrorRate | src/health.rs:474-499 | 0 <= hard rate <= error rate <= 1 |
| Circuit.EmaWithinSamples | src/health.rs:517-525 | the latency average stays within the probe samples seen, and is 0 before the first |
| CircuitHistory.ErrorRateMeans | src/health.rs:474-484 | the score's rate is the share of failures and throttles in the window |
| CircuitHistory.HardErrorRateMeans | src/health.rs:489-499 | the breaker's rate is the share of failures alone |
| CircuitHistory.OpensExactlyWhen | src/health.rs:710-723 | any record opens a closed circuit exactly if with it the history ends in circuit_open_failures failures, throttles left out, or the failures exceed the threshold's share of the window |
| CircuitHistory.OpeningTime | src/health.rs:717-719 | the opening time of an open circuit is the clock of the record that opened it |
| CircuitHistory.EmaIsAverageOfProbes | src/health.rs:517-525 | the average starts with the first successful probe and takes 15 parts of each new one to 85 of what was; nothing else moves it |
| Score.ScoreInUnitInterval | src/health.rs:573-613 | the score is in [0, 1] |
| Score.ScoreNeverRises | src/health.rs:573-613 | it never rises as drift, a positive latency average or the bad fraction grows |
| Score.EveryScoreInRange | src/health.rs:573-613 | after any recorded history the score is in range |
| Score.ScoreIsWeightedMean | src/health.rs:578-612 | the score is the mean of 200/(200+latency), the success rate twice, and threshold/(threshold+drift), each by its own weight |
| Score.ScoreAtTheEnds | src/health.rs:573-607 | 0 for an open circuit, one half without weights or data, at 200 ms, and at the drift threshold |
| Routing.PickWeighted | src/router.rs:228-237 | the loop picks the first position whose cumulative weight reaches the target |
| Routing.ConfigOrder | src/router.rs:257-272 | configured snapshots in configuration order, then the others |
| Routing.WeightedOrder | src/router.rs:215-253 | the picked primary first, then the rest by falling score |
| Routing.Route | src/router.rs:148-292 | the decision equals the specified one under every strategy and roll |
| RoutingOrder.ByScorePermutes | src/router.rs:202-206 | sorting by score loses and adds nobody |
| RoutingOrder.ByScoreFalls | src/router.rs:202-206 | scores fall along the list |
| RoutingOrder.ByScoreIsStable | src/router.rs:202-206 | equal scores keep their order |
| RoutingOrder.ConfigOrderPermutes | src/router.rs:257-272 | with distinct names, configuration order is a permutation |
| RoutingOrder.ConfiguredInConfigOrder | src/router.rs:257-265 | the configured part lists exactly the configured names present, in configuration order |
| RoutingOrder.DecisionIsOrderedPermutation | src/router.rs:171-292 | a decision that is not degraded is a permutation of exactly the available, permitted snapshots, in the order its strategy promises |
| RoutingOrder.DegradedExactly | src/router.rs:176-189 | degraded exactly when nobody permitted is available; then everyone permitted is listed |
| RoutingOrder.FullHistoryNeedsFullProvider | src/router.rs:162-189 | no configured Recent provider serves a full-history call, even degraded |
| RoutingOrder.BroadcastExactly | src/router.rs:176-292 | fanned out exactly for broadcast writes and for races with someone available |
| RoutingOrder.SingleWriteExactly | src/router.rs:191-200 | with broadcast_writes off, a write goes out one at a time exactly outside parallel_race or when nobody is available |
| RoutingOrder.RacedWrite | src/router.rs:279-291 | a write to a configured provider that is fanned out with broadcast_writes off |
| RoutingOrder.WriteClassIgnored | src/router.rs:191-292 | with broadcast_writes off, whether a method is a write makes no difference to any decision |
| RoutingOrder.BroadcastWriteIgnoresStrategy | src/router.rs:176-197 | with it on, the strategy makes no difference to a write |
| RoutingOrder.PickedExactlyOnOwnInterval | src/router.rs:228-237 | position i is picked exactly on its own interval of the cumulative weights, of length weight i |
| RoutingOrder.ListedExactly | src/router.rs:162-292 | a provider is listed exactly if it has a snapshot, its allowlist and history depth permit the call, and, unless degraded, its circuit is not open and it is not at its cap |
| RoutingOrder.FiltersKeepOrder | src/router.rs:171-185 | leaving providers out keeps the order of the rest |
| RoutingOrder.WeightMeans | src/router.rs:215-225 | a snapshot weighs its score times its configured weight, or 1, and at least a billionth |
| RoutingOrder.TargetMeans | src/router.rs:226-227 | the roll is scaled to the total weight |
| RoutingOrder.WeightedPickExactly | src/router.rs:215-253 | the weighted strategy lists a provider first exactly if the scaled roll lands in its interval of the weights |
| Reload.RebuildExactlyWhenInputsChange | src/main.rs:533-545 | a client is rebuilt exactly when it is new or its inputs changed, for the first reason that holds |
| Reload.GoneIsStopped | src/health.rs:909-913 | a provider that is gone, or has a new loop, had its old loop stopped |
| Reload.PassesFit | src/main.rs:452-502 | the three passes make clients, tracked providers and limiter rates match the new configuration |
| Reload.PassesKeepLoops | src/main.rs:466-502 | health is kept exactly where the client inputs are unchanged, token level included if the cap is |
| Reload.PassesMeter | src/main.rs:466-502 | a rebuilt or newly capped provider starts with a full bucket; a kept limiter never gains more than what accrued, nor loses what fits under the new cap |
| Reload.Fleet.constructor | src/main.rs:446-450 | an empty fleet matches the empty configuration |
| Reload.Fleet.AddProvider | src/health.rs:858-871 | a new entry with a fresh loop and limiter; every loop still serves one entry or is stopped |
| Reload.Fleet.RemoveProvider | src/health.rs:909-913 | the entry goes and its loop is stopped; unknown names change nothing |
| Reload.Fleet.ApplyRateLimit | src/health.rs:876-889 | installs, updates in place or removes the limiter, keeping the loop; unknown names change nothing |
| Reload.Fleet.DropRemoved | src/main.rs:452-459 | in any visiting order exactly the providers no longer named are gone, the others untouched |
| Reload.Fleet.Rebuild | src/main.rs:472-483 | remove-then-add leaves one client and one entry with a fresh loop |
| Reload.Fleet.BuildChanged | src/main.rs:465-484 | in any visiting order exactly the changed and added providers are rebuilt |
| Reload.Fleet.ApplyCaps | src/main.rs:491-502 | in any visiting order exactly the changed caps are applied, loops untouched |
| Reload.Fleet.Reconcile | src/main.rs:446-502 | one reload: everything matches the new configuration, health is kept exactly where inputs are unchanged, token levels as above, every dropped loop is stopped |
| Reload.Fleet.Watch | src/main.rs:446-524 | after any sequence of reloads the fleet matches the last configuration |

## Left out

- HTTP clients, handlers, sockets, TLS, signals, task spawning and timers: replaced by arbitrary replies, arrival orders and explicit times.
- JSON, base58, base64 and TOML parsing and environment expansion: parsed bodies and byte sequences are inputs. A body is its text with its error member and whether it has a result.
- Fingerprint hashing: fingerprints are opaque keys with an order, so two requests with one fingerprint are one key.
- Probe timing (`ProbeClock`): each probe carries an arbitrary optional round.
- Prometheus metrics, telemetry serialization, window timestamps, and the latency and drift-flag fields of a snapshot: plumbing or easy members beside what is proved.
- Configuration validation beyond what is used as a precondition: unique provider names, and the explicit requirements `circuit_open_failures >= 1`, `slot_drift_threshold >= 1` and nonnegative weights, which the configuration loader does not check.
- f64 rounding and NaN: rates, tokens, scores and weights are reals. Counters and times are unbounded integers; the 16-, 32-, 64- and 128-bit bounds of the transaction decoder are kept. `usize` overflow in the cursor is left out, since no length read from the wire reaches it.
- Bit operations in the decoder are written as arithmetic on bytes, and program ids as numbers.
- A panic in a sequential forward, which would abort the whole request task; panics of broadcast legs are modelled.
- The queue and the probe loops are transition systems on values: they capture every interleaving of atomic steps, but not the in-place atomics and locks themselves. Each read of a routing snapshot is its own point of the run.
- Rate tokens seen by failover and broadcast: each position of the list carries whether its bucket would grant a token; the buckets themselves are `TokenBucket`.
- Reload against requests in flight, and the settings that need a restart: one reload is one sequential method.
- FailoverRuns.EveryRunConcludes: the two lookups of a provider by name, first match and any match, are one lookup, because provider names are unique.
- Circuit.BreakerInvariant: states nothing for `circuit_open_failures = 0`, where Closed is left on the first record whatever it is.
- AnalyticsQueue.EveryRunCanDrain: says that a drain is always possible and needs a bounded number of steps, not that the scheduler takes them.
