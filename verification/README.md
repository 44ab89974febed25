# Verified model of the Qoder reverse proxy

A Dafny model of the parts of the proxy that carry state from one step, request or goroutine to
the next, with proofs of what they keep. It covers the account pool and its credentials file, the
failover loop of a chat request, the choice of a transport and its shared cache, the streaming
pipeline from SSE bytes to the two kinds of answer, the request body codec, the queue signal and
the model catalog.

`dafny verify dfyconfig.toml` checks all of it.

| file | what it models |
|---|---|
| `wrappers.dfy`, `sorting.dfy` | small shared things; sorting by ID |
| `credential.dfy` | the account record and the credentials file |
| `pool.dfy` | entries with lazy recovery, selection, marks, one undisturbed `EnsureFresh` |
| `refresh_protocol.dfy` | any number of interleaved `EnsureFresh` calls as a state machine |
| `refresh_theorems.dfy` | what every run of that state machine promises: nothing refreshed is lost, no deadlock, runs end |
| `pool_protocol.dfy` | the undisturbed call is a run of that state machine |
| `failover.dfy` | the loop of `chat` as a specification: one pass, and whole runs |
| `failover_bounds.dfy`, `failover_blame.dfy`, `failover_jitter.dfy`, `failover_calls.dfy` | theorems about runs: work and waiting, health of accounts, the jitter, the other models beside it |
| `failover_decisions.dfy` | what decides a pass: how far it gets, what its last answer leads to, what the account pays, when the run gives up, the tickets of a run |
| `failover_server.dfy` | the loop as methods over the pool's objects |
| `transport_cache.dfy`, `transport_modes.dfy` | `pickTransport`, the 404/405 crossing, and the cache all requests share; which transport is used under which configuration |
| `catalog.dfy` | the model catalog under interleaved `Get` calls |
| `json_scanner.dfy`, `json_grammar.dfy` | the scanner that decides whether a text is valid, cut short or malformed, and the grammar of RFC 8259 it is equal to |
| `sse.dfy`, `sse_lines.dfy`, `sse_frames.dfy`, `sse_stream.dfy` | SSE lines, what each of them does, reassembly of JSON cut across frames, how a stream ends |
| `thinking.dfy`, `thinking_tokens.dfy`, `thinking_tags.dfy` | the thinking-tag router, what it computes said without its state, its tags and the events it puts out |
| `openai.dfy` | the accumulator and the SSE writer |
| `relay.dfy`, `relay_theorems.dfy`, `relay_outcomes.dfy` | parser, router and rendering put together; statuses, partial answers and chunk headers |
| `queue_signal.dfy`, `queue_depth.dfy`, `queue_shape.dfy` | recognising the queue signal in escaped text; its delay in text that is not escaped; which texts the patterns match |
| `body_codec.dfy`, `body_digits.dfy` | base64 (section 4 of RFC 4648), the swap of thirds, the substitution; the encoded body as digits of a number |

## How the source is represented

- Go strings and byte slices are Dafny strings whose characters stand for bytes. Where UTF-8
  matters (`bytes.TrimSpace`) the multi-byte sequences are written out.
- Times and durations are integers; the zero `time.Time` is `None`. The 64-bit product in
  `QueueWaitSeconds`, the 64-bit ticket counter and Go's sign of `%` are written out.
- Clocks, the network, token refreshes, probes, Chat calls, the jitter draw, the session hash and
  the outcome of a file write (done, not done, or done with an error from the last chmod) are
  parameters. In the failover loop they come as one `Turn` per
  pass, together with arbitrary changes that other requests make to the pool in between; account
  IDs do not change, because a token refresh keeps them (internal/qoder/auth.go is not part of
  this model beyond that).
- Objects whose methods update fields (`Entry`, `Pool`, `Store`, `Catalog`, `ThinkingRouter`,
  `Accumulator`, `SSEWriter`, the variables of `ParseSSE`, the transport cache) are classes. Each
  method is tied to a function of the old value, and the theorems are about those functions.
- Concurrency is a state machine: one step is what happens between two lock operations. Theorems
  quantify over all interleavings.
- `json.Unmarshal`'s syntax check is the byte-at-a-time scanner of `encoding/json` in Go 1.22,
  with its probe for the end of the text by one extra space. It is proved equal to the grammar of
  RFC 8259 (`json_grammar.dfy`). Turning a valid JSON text into events is a parameter.

## Where the code and its descriptions differ

- The comment on `QueueWaitSeconds` promises a positive value (internal/qoder/queue.go:46-47).
  From 9223372037 seconds on the product overflows. `QueueSignal.WaitPositiveIff` says for every
  message when the result is positive, `QueueSignal.DelayExactIff` when it is exact, and
  `QueueSignal.WaitCanBeNegative` gives a message at which it is negative.
- The patterns are meant to accept escaped and unescaped text (internal/qoder/queue.go:28-30), but
  a quote is only accepted with a backslash before it. `QueueSignal.MissedIff` says exactly which
  unescaped messages are missed; `"code":"10605"` in plain JSON is one
  (`QueueSignal.BareJsonNotRecognised`). The delay of a recognised message is the same before and
  after escaping if no bare quote stands at the first place where one is read
  (`QueueDepth.SameWaitAtEveryDepth`); `QueueDepth.WaitCanDependOnDepth` is a message where one does.
- Reassembly is meant to join any truncated JSON. `isIncompleteJSON` recognises the truncation by
  the text of one error, and a cut inside `true`, `false`, `null`, an escape, or a number after
  its sign, point or exponent gives a different error. The stream then fails:
  `SseFrames.ReassemblyTransparentIffClean`, `SseFrames.CutInsideLiteralRefused`.
- The streaming relay's `[DONE]` is its last frame except in one situation, stated exactly in
  `RelayTheorems.OneTerminator`; `RelayTheorems.ErrorAfterDoneHappens` is an instance.
- `Response` lists a tool call for each index below the number of tools, which is every call
  exactly when the indices have no gap: `OpenAI.AllCallsListedIff`. A single tool with index 1 is
  not listed: `OpenAI.IndexOneAloneIsLost`.
- `Upsert` overwrites the first account with the same ID or the same region and user, and can
  leave two accounts with one ID: `Credential.UpsertKeepsIdsDistinct`, with the instance
  `Credential.UpsertCanRepeatAnId`. The login command writes IDs made of region and user
  (internal/qoder/auth.go:81), so only a file edited otherwise gets there.
- The transport cache joins account ID and class with `|`. An account ID that starts with another one
  followed by `|concrete:` breaks the rule that concrete models never go to Bearer:
  `TransportCache.TransportSafety`.
- A 404/405 crossing is cached so that later requests use COSY. A concurrent request that read the
  cache before the crossing can store Bearer after it: `TransportCache.CrossingSticksIff` says
  exactly when the crossing is remembered, `TransportCache.CrossingCanBeForgotten` gives a run in
  which it is not.
- A fresh catalog hit re-reads the snapshot and may return another account's list:
  `Catalog.HitIsOwnIff` is exact, `Catalog.HitMayReturnAnotherList` gives a run.
- A ticket counter of 2^63 or more makes the index negative, unless the count of candidates
  divides evenly: `Pool.PickInRange`. With three candidates the counter 2^63 panics:
  `Pool.LargeCounterPanics`.
- Text still pending when the stream ends is streamed in chunks with the default ID, the fallback
  model and the current time, not those of the stream: `RelayOutcomes.HeadsAgreeIff` says exactly
  when all chunks of a stream agree.
- A queue jitter of zero or less makes the draw panic at the first answer that would be waited
  for: `FailoverJitter.JitterPanicIff`, `FailoverJitter.JitterPanicHappens`.

## Model

| member | source | states |
|---|---|---|
| Credential.Store.Load | internal/credential/store.go:48-82 | the accounts of the file exactly when it is readable and every account has the four required fields, a known region and a known kind of token |
| Credential.Store.Upsert | internal/credential/store.go:97-119 | the file becomes the upserted list exactly when every check passes and the write gets as far as the rename; success is reported exactly when the chmod after it works too |
| Credential.Store.Replace | internal/credential/store.go:121-130 | the file becomes the given list exactly when all accounts are valid and the write gets as far as the rename; success is reported exactly when the chmod after it works too |
| Sorting.SortedIsOrdered | internal/pool/pool.go:65 | the sorted list is a permutation of the list in the order of its keys |
| Sorting.AtMostIsLexical | internal/pool/pool.go:65 | the order of the keys: a prefix first, otherwise the smaller character at the first difference |
| Credential.UpsertIsReadBack | internal/credential/store.go:104-118 | a lookup of the written ID finds the written account, whatever the file held |
| Credential.UpsertKeepsTheRest | internal/credential/store.go:104-118 | of the accounts that share the ID or the region and user only the first is overwritten, every other one stays in its place, and a new account comes last |
| Credential.UpsertKeepsIdsDistinct | internal/credential/store.go:104-118 | distinct IDs survive if and only if no account after the overwritten one has the new ID |
| Credential.UpsertCanRepeatAnId | internal/credential/store.go:104-118 | an instance: the new account shares region and user with the first account and the ID with a later one |
| Pool.Entry.Snapshot | internal/pool/pool.go:33-47 | reports the recovered view and writes the recovery back |
| Pool.LazyIsEager | internal/pool/pool.go:33-47 | after any history under a non-decreasing clock, all that is reported (account, state, cooldown time, transport, error) is what an eager timer defined without snapshots would report |
| Pool.SnapshotsAreInvisible | internal/pool/pool.go:33-47 | two histories that differ only in snapshots show the same state, account, cooldown time, transport and error |
| Pool.Pool.constructor | internal/pool/pool.go:60-67 | one healthy entry per account of the file, with the account's transport, in the order of the IDs |
| Pool.FileOrderIsForgotten | internal/pool/pool.go:60-67 | with distinct IDs, files that list the same accounts in different orders give the same entries |
| Pool.Pool.Available | internal/pool/pool.go:71-80 | the number of entries that are healthy once expired marks have been dropped |
| Pool.Pool.Select | internal/pool/pool.go:82-101 | the selection from the refreshed entries; the counter moves exactly for sessionless picks |
| Pool.SelectionSound | internal/pool/pool.go:82-101 | a pick is healthy and not excluded; there is none if and only if every healthy entry is excluded |
| Pool.PickInRange | internal/pool/pool.go:93-100 | the index is a candidate's if and only if there is a session, the counter is below 2^63, or the wrapped counter divides evenly |
| Pool.LateTickets | internal/pool/pool.go:93-100 | from the counter 2^63 on, without a session, the first candidate is picked if the wrapped counter divides evenly, and otherwise the index is out of range |
| Pool.LargeCounterPanics | internal/pool/pool.go:93-100 | an instance: three healthy candidates, no session and the counter 2^63 |
| Pool.StickySession | internal/pool/pool.go:94-96 | equal sessions on equal candidates pick the same account, whatever the counter |
| Pool.RoundRobinBalanced | internal/pool/pool.go:82-101 | k back-to-back tickets, used in any order, pick each of the n accounts that are healthy and not excluded floor(k/n) or ceil(k/n) times |
| Pool.PickedInTurn | internal/pool/pool.go:82-101 | which account is picked: the one with as many candidates before it as the session hash or the ticket leaves modulo their number, and no other |
| Pool.SessionsSpread | internal/pool/pool.go:94-96 | two sessions pick the same account if and only if their hashes are equal modulo the number of candidates |
| Pool.Pool.EnsureFresh | internal/pool/pool.go:103-141 | one undisturbed call: the entry, the result, and the file, which takes the copy of all entries exactly when the write succeeds; a successful refresh leaves its token, expiry and, if it has one, its refresh token in the entry and in the returned account |
| Pool.Pool.MarkAuthError | internal/pool/pool.go:143-148 | only that entry changes, to the auth-error state |
| Pool.Pool.MarkDisabled | internal/pool/pool.go:150-156 | only that entry changes, to disabled until the recovery time |
| Pool.Pool.MarkCooldown | internal/pool/pool.go:157-166 | only that entry changes, to cooldown, with a minute for a length that is not positive |
| Pool.Pool.Recover | internal/pool/pool.go:167-177 | exactly the entries with that ID become healthy, whatever they were |
| RefreshProtocol.InvAlong | internal/pool/pool.go:103-141 | the inductive invariant of the refresh and persist protocol holds along every run |
| RefreshTheorems.NoRefreshedTokenLost | internal/pool/pool.go:103-141 | in every reachable state each entry is read back from the file, or a goroutine still owes a snapshot with it, or its own write failed and none reached the file since |
| RefreshTheorems.MemoryHoldsTheLastTokens | internal/pool/pool.go:117-126 | along every run each account in memory has the access token and expiry of its last successful refresh, the last refresh token that was not empty, and all else as it was loaded |
| RefreshTheorems.QuiescentFileIsMemory | internal/pool/pool.go:127-139 | when all calls have returned, some write reached the file and the last one did, the file is the list of accounts in memory, shared IDs or not |
| RefreshTheorems.QuiescentFileReadsBack | internal/pool/pool.go:127-139 | with distinct IDs the file then gives back every account, also when nothing was refreshed |
| RefreshTheorems.QuiescentFileHoldsTheLastTokens | internal/pool/pool.go:103-141 | when all calls have returned and the last write reached the file, the file holds exactly those tokens for every account |
| RefreshTheorems.ReplaceFailsOnlyOnDisk | internal/credential/store.go:121-130 | no reachable snapshot is turned down by validation |
| RefreshTheorems.NoDeadlock | internal/pool/pool.go:103-141 | with or without a store, every reachable state with an unfinished call has an enabled step of an unfinished goroutine |
| RefreshTheorems.RunsEnd | internal/pool/pool.go:103-141 | a run without new calls is no longer than the steps left at its start |
| RefreshTheorems.AtMostOneRefresh | internal/pool/pool.go:103-126 | any number of unforced calls on one entry makes at most one successful refresh, if refreshed tokens outlive the run by the window |
| PoolProtocol.EnsureFreshIsARun | internal/pool/pool.go:103-141 | the undisturbed call is a run of the protocol with the same accounts, file and result |
| Failover.IterateShape | internal/server/server.go:332-457 | a pass ends the run before any attempt, or tries one account that is not excluded with at most three calls, none after a stream, and moves the loop variables as its verdict says |
| Failover.PassUsesUp | internal/server/server.go:332-413 | every pass that goes on uses up exactly one account or one queue round, though the attempt counter goes down when waiting |
| FailoverBounds.CountersAtEveryHead | internal/server/server.go:319-346 | at every loop head of every run the attempt counter is the size of the excluded set, attempts plus queue rounds are the accounts tried so far, and both counters and the 5xx retries keep to their limits |
| FailoverBounds.RunIsReached | internal/server/server.go:332-459 | the run ends in the state that some number of passes leads to |
| FailoverBounds.RunIsBounded | internal/server/server.go:319-459 | at most pool size plus queue rounds tries, three Chat calls per try, Max5xxRetries survived server errors |
| FailoverBounds.EachAccountOnce | internal/server/server.go:332-345 | no account is tried more than once plus its own queue rounds |
| FailoverBounds.WaitingIsBounded | internal/server/server.go:400-422 | total wait at most the budget plus one jitter, and at most rounds times longest wait plus jitter, also on an aborted wait |
| FailoverBounds.StreamEndsTheRun | internal/server/server.go:371-393 | a run relays if and only if its last Chat call opened a stream, and no earlier one did |
| FailoverBounds.FinalAnswer | internal/server/server.go:333-343 | a run that gives up answers 403 exactly when some attempt ended in a model quota, else 503; every error status is in 400..599 |
| FailoverDecisions.PassReaches | internal/server/server.go:344-393 | how far a pass gets: a token that is good or renewed and saved, a catalog, the model, its capabilities, a transport; then exactly which calls it makes and with which token |
| FailoverDecisions.AnswerDecides | internal/server/server.go:394-457 | the last answer decides: a stream is relayed; a wait asked for within the limits is waited for; else the run goes on if and only if the answer is a 401, 403, 429 or a server error with a retry left, and otherwise ends with that status or 502 |
| FailoverDecisions.AnswerIsPaidFor | internal/server/server.go:426-442 | what going on costs the account: a cooldown of the longer of two lengths, a disablement until the recovery time, or an authentication error |
| FailoverDecisions.PassLeavesNoted | internal/server/server.go:371-393 | the transport noted on the entry is the one used last if it was picked anew or changed; an account that rejects its token, and a renewed one if it got one, has an authentication error even if it is waited for |
| FailoverDecisions.GivesUpWhen | internal/server/server.go:332-343 | a run gives up if and only if as many accounts have been tried as the pool has or no healthy one is left, and answers with the last quota refusal or else 503 and the reason |
| FailoverDecisions.RunTakesTickets | internal/pool/pool.go:93-100 | a run without a session takes one ticket for each account it picks, a run of a session none |
| FailoverJitter.JitterPanicIff | internal/server/server.go:400-413 | a run panics over the jitter if and only if it is not positive and the run's last answer is one that would be waited for in the first round; with such a jitter no round is completed |
| FailoverJitter.JitterPanicHappens | internal/server/server.go:400-413 | a run that panics: jitter zero and a 403 showing the queue type |
| FailoverBounds.NoHealthyAccountLeftOut | internal/server/server.go:332-343 | a run gives up only when every account that is healthy in the end has been tried |
| FailoverBlame.OnlyBlameCostsHealth | internal/server/server.go:344-456 | in an undisturbed run a healthy entry stays healthy unless its own refresh failed or its own answer was a 401, a 403 without quota, or a 429 |
| FailoverBlame.VerdictFitsAnswer | internal/server/server.go:394-456 | every verdict is what the last answer said: a queue wait exactly when it signals a queue and the gate is open, only otherwise what its status and quota marker say |
| FailoverBlame.VerdictTellsHealth | internal/server/server.go:344-456 | in a pass that other requests leave alone the verdict tells the health its account is left in: auth error, disabled, cooling, or as healthy as when picked |
| FailoverBlame.SpentQueueDisables | internal/server/server.go:400-439 | of the passes that go on after a 403 without model quota, exactly those at a closed queue gate leave the account disabled |
| FailoverCalls.CallsAreTheProtocol | internal/server/server.go:371-393 | the Chat calls of a pass are those of an attempt of the transport protocol: as many, with the same answers, in the same order |
| FailoverCalls.FileFollowsThePool | internal/pool/pool.go:127-139 | in an undisturbed run whose writes reach the file, the credentials file stays the pool's list of accounts |
| FailoverServer.Server.Chat | internal/server/server.go:319-467 | the imperative loop does to the pool's entries and answers exactly what the specified run does |
| FailoverServer.Server.Judge | internal/server/server.go:394-456 | the verdict of one pass on the entry and the loop variables |
| TransportCache.Transports.PickTransport | internal/server/server.go:469-534 | the transport, the cache entry written and the entry's transport are those of the uninterrupted protocol |
| TransportCache.PickIsARun | internal/server/server.go:469-534 | an uninterrupted pick is four steps of the interleaved protocol |
| TransportCache.InvAlong | internal/server/server.go:469-534 | in auto mode, in every interleaving, only tier keys are cached as Bearer and no attempt for a concrete model is about to use Bearer |
| TransportCache.TransportSafety | internal/server/server.go:367-393 | no interleaving calls Bearer for a concrete model if and only if no account ID starts with another one followed by the concrete class |
| TransportCache.PlainIdsAreSafe | internal/server/server.go:475-483 | account IDs without the separator are safe |
| TransportCache.OneCrossing | internal/server/server.go:371-393 | at most three calls per attempt; one change of transport at most, from Bearer to COSY, after a 404 or 405 in auto mode with no stream open |
| TransportCache.CrossingReadIff | internal/server/server.go:382-390 | after a crossing, whatever else runs, a read of its key gives COSY if and only if the last write since is not a late store of Bearer |
| TransportCache.CrossingSticksIff | internal/server/server.go:382-390 | a crossing is remembered in every continuation if and only if at that moment no attempt on its key is between its read and its store of Bearer |
| TransportCache.CrossingCanBeForgotten | internal/server/server.go:382-390 | a run from the start in which a crossing on a tier key is overwritten and the next read gives Bearer |
| TransportModes.ConfiguredIsUsed | internal/server/server.go:469-534 | with a transport configured every Chat call of every request goes by it, in every interleaving |
| TransportModes.PickDecides | internal/server/server.go:469-534 | what an uninterrupted pick ends with, from the configuration, the cached name, the kind of model and the two probes; a 404 on the Bearer probe leads a tier to COSY |
| TransportModes.ClassesApart | internal/server/server.go:475-483 | all tiers share a cache class, every other model has its own, and a crossing writes the class that the next pick reads |
| Catalog.Catalog.Get | internal/qoder/catalog.go:61-87 | the returned and the stored snapshot of one undisturbed call |
| Catalog.Catalog.Find | internal/qoder/catalog.go:89-97 | the first model with that ID, and none if and only if there is none |
| Catalog.BuildModels | internal/qoder/catalog.go:133-174 | one model per usable entry with the largest context option or else the input limit, sorted by ID; an error if and only if no entry is usable |
| Catalog.SnapshotIsLastCommit | internal/qoder/catalog.go:53-87 | in every interleaving the snapshot is exactly the list last fetched and written, with its account and time; empty or degraded only if there is none |
| Catalog.NeverFallsBack | internal/qoder/catalog.go:71-86 | once a fetch has succeeded no continuation makes the snapshot degraded or empty |
| Catalog.FetchedAtNeverDecreases | internal/qoder/catalog.go:61-87 | under a non-decreasing clock the snapshot's time never decreases |
| Catalog.EveryGetReturnsModels | internal/qoder/catalog.go:61-87 | every call returns at least one model, the fallback only if no fetch has succeeded by then |
| Catalog.FailuresAreReported | internal/qoder/catalog.go:71-86 | in every interleaving the snapshot carries the message of the last fetch that was written, and a call returns an error if and only if its own fetch failed and none has succeeded |
| Catalog.HitIsOwnIff | internal/qoder/catalog.go:62-68 | a hit returns its own account's list if and only if nothing was written between its two reads, or the last list written is of the same account |
| Catalog.HitMayReturnAnotherList | internal/qoder/catalog.go:62-68 | for any two accounts there is a run in which a fresh hit of the one returns the list of the other |
| Catalog.GetIsARun | internal/qoder/catalog.go:61-87 | the undisturbed call is a run of the protocol |
| Catalog.HitReturnsTheLastFetch | internal/qoder/catalog.go:61-87 | run one after the other, a call is a hit exactly when the last fetched list is its account's and within its time to live, and the snapshot is that list |
| JsonScanner.ProperPrefixVerdict | internal/stream/sse.go:167-170 | a proper prefix of an object text is reported as cut short, unless it ends inside a token that a space cannot follow; then as malformed |
| JsonGrammar.ValidIffJson | internal/stream/sse.go:172-176 | a text is valid if and only if it is in the grammar of RFC 8259, nested no deeper than 10000 |
| JsonGrammar.TruncatedIffContinues | internal/stream/sse.go:167-170 | a text is reported as cut short if and only if it is no JSON text, can be continued to one, and does not end inside a token that a space cannot follow |
| Sse.Parser.ConsumePayload | internal/stream/sse.go:29-76 | one payload: buffer, done flag, emitted events and error |
| Sse.Parser.ParseSSE | internal/stream/sse.go:78-144 | the whole parse, for every way the body can end and every failing emit |
| SseLines.BlankAndMarker | internal/stream/sse.go:29-36 | a payload is skipped if and only if it is Unicode white space, and is the end marker if and only if it is [DONE] with white space around it |
| SseLines.LineDecides | internal/stream/sse.go:29-129 | what one line does, from its text, the buffer and the verdict on the two together, and that the rest is parsed from there |
| SseLines.TailDecides | internal/stream/sse.go:105-143 | what the last line without a line feed does, and with which error the parse ends |
| SseFrames.ReassemblyTransparentIffClean | internal/stream/sse.go:29-76 | an object cut over data lines, with or without the space behind the colon, and, after the first, lines without the field, inert lines in between, acts as the uncut line (the same events and error, and without an error the same buffer) if and only if no cut falls inside such a token |
| SseFrames.SpaceIsOptional | internal/stream/sse.go:107-118 | a payload that does not start with a space has the same effect with and without the space behind the colon |
| SseFrames.CutInsideLiteralRefused | internal/stream/sse.go:167-170 | an object text with a cut inside a literal is refused |
| SseStream.BodyReassembly | internal/stream/sse.go:78-118 | the same on the byte stream, with either line ending and anything following |
| SseStream.NothingSwallowed | internal/stream/sse.go:29-76 | after success the payloads read off the text of the lines fall into consecutive groups that parse, and the events are the groups' in order with one done event last |
| SseStream.BufferBounded | internal/stream/sse.go:47-58 | the reassembly buffer never exceeds 16 MiB |
| SseStream.OneDoneAtMost | internal/stream/sse.go:33-40 | the done event comes at most once, and last |
| SseStream.ErrorAfterDoneIff | internal/stream/sse.go:119-143 | success comes with a done event; an error after it exactly when a last line without line feed and field completed the stream and its read failed |
| SseStream.BrokenTailHappens | internal/stream/sse.go:119-143 | a stream in which that happens: the end marker's envelope with its closing brace on a second line |
| Thinking.ThinkingRouter.Feed | internal/stream/thinking.go:22-66 | from any state, the router's new state and pieces are those of the one-byte automaton, merged into maximal pieces |
| Thinking.ThinkingRouter.Finalize | internal/stream/thinking.go:68-76 | the pending bytes come out on their channel and nothing stays pending |
| Thinking.ThinkingRouter.Route | internal/stream/thinking.go:87-132 | the routed events of one event |
| Thinking.GroupIsCanonical | internal/stream/thinking.go:24-33 | the pieces are exactly the bytes, none empty, no two neighbours on one channel |
| ThinkingTokens.RouterIsSplit | internal/stream/thinking.go:22-66 | the automaton's output and final state are those of the left-to-right split into text and tags |
| ThinkingTokens.SplitConserves | internal/stream/thinking.go:34-66 | tokens and rest are the input, the rest is empty or a tag prefix of at most 11 bytes |
| ThinkingTokens.SplitIsUnique | internal/stream/thinking.go:34-66 | no other split meets the rules |
| ThinkingTokens.OnlyTagsDisappear | internal/stream/thinking.go:34-76 | the output with the pending bytes is the input without the tags; the thinking flag is the polarity of the last tag |
| ThinkingTokens.UntaggedUnchanged | internal/stream/thinking.go:22-76 | input without a tag comes out unchanged |
| ThinkingTokens.RechunkingInvisible | internal/stream/thinking.go:22-66 | two ways of cutting the same tagged bytes give the same state and the same bytes on the same channels |
| ThinkingTags.TagsAreNamed | internal/stream/thinking.go:5-9 | the tags are an opening and a closing one for each of three names, and the candidates their prefixes |
| ThinkingTags.BlockIsThinking | internal/stream/thinking.go:22-66 | text between an opening and a closing tag, whatever their names, comes out as reasoning, what is before it on its channel, what follows as content |
| ThinkingTags.BrokenComesOutWhole | internal/stream/thinking.go:51-64 | a broken candidate comes out whole, as reasoning if any of its bytes came as reasoning or the router is thinking |
| ThinkingTags.RoutedInOrder | internal/stream/thinking.go:87-132 | one delta comes out as role, texts, tool calls and finish reason in that order, each in events of its own with the delta's header |
| OpenAI.Accumulator.Add | internal/stream/openai.go:27-65 | the accumulated value after one event |
| OpenAI.Accumulator.Respond | internal/stream/openai.go:67-112 | the answer, and the defaults written back |
| OpenAI.AccumulatesInOrder | internal/stream/openai.go:27-65 | texts are the concatenations in order, tools are collected by index, usage, finish reason, ID, model, role and time are the last ones given |
| OpenAI.AllCallsListedIff | internal/stream/openai.go:84-102 | the answer lists every tool if and only if the indices are 0..n-1 |
| OpenAI.IndexOneAloneIsLost | internal/stream/openai.go:84-102 | an instance: the only tool seen has index 1, and the answer lists no call |
| OpenAI.ResponseFromEvents | internal/stream/openai.go:27-112 | for indices 0..n-1 exactly n calls, the i-th with all its argument fragments in order, or an empty object, and the last ID, name and type given for it |
| OpenAI.ResponseHead | internal/stream/openai.go:67-112 | ID, model, time, finish reason and usage of the answer are the last ones given or the defaults; content is null exactly when it is empty and there are tool calls |
| OpenAI.SSEWriter.WriteEvent | internal/stream/openai.go:121-179 | the frames after one event; the done frame once; usage only on request |
| OpenAI.StreamAgreesWithAggregate | internal/stream/openai.go:27-179 | accumulating the written chunks gives the same role, content, reasoning, tools and finish reason as accumulating the events, and the same usage if it was asked for, else none |
| OpenAI.UsageIsAllThatIsLeftOut | internal/stream/openai.go:134-136 | without usage asked for the frames are those with it, less the chunks that carry usage |
| Relay.RelayStream | internal/server/server.go:547-601 | the frames and status of the streaming relay for every body and ending |
| Relay.RelayAggregate | internal/server/server.go:602-634 | the answer and status of the aggregate relay for every body and ending |
| RelayTheorems.AnswerIsRoutedText | internal/server/server.go:602-634 | the answer's texts are the two channels of the tag automaton over all text of the stream |
| RelayTheorems.AnswerIgnoresChunking | internal/server/server.go:602-634 | how the text is cut into deltas does not change the answer's texts |
| RelayTheorems.OnlyTextIsRouted | internal/server/server.go:602-634 | but for the texts the answer is what the events accumulate to as they came: ID, model, role, time, tools, usage and finish reason |
| RelayTheorems.StreamingAgreesWithAggregate | internal/server/server.go:545-635 | when the stream parses, the streamed chunks add up to what the aggregate answer is built from, whether or not usage was asked for |
| RelayTheorems.BodyToAnswer | internal/server/server.go:602-634 | when the stream parses, the aggregate answer shows the text of exactly the events of the accepted payloads' groups, routed by the tag automaton, and for the rest what those events accumulate to: tool deltas by index, the last usage, the last finish reason |
| RelayTheorems.OneTerminator | internal/server/server.go:558-601 | exactly one done frame; it is the last frame except exactly in the broken-tail situation |
| RelayTheorems.ErrorAfterDoneHappens | internal/server/server.go:558-601 | a stream after which the error frame follows the done frame |
| RelayOutcomes.ForbiddenIffQuota | internal/server/server.go:583-588 | a relay answers 403 if and only if the stream ended in an envelope error with a quota message, else 502 |
| RelayOutcomes.PartialIffShown | internal/server/server.go:573-590 | the error frame says partial if and only if an earlier frame shows the client something |
| RelayOutcomes.HeadsAgreeIff | internal/server/server.go:559-571 | all chunks carry the header of the stream if and only if nothing was pending at the end; what was pending goes out under the default ID |
| QueueSignal.DelayExactIff | internal/qoder/queue.go:48-58 | for a recognised message carrying n seconds that Atoi can read, the wait is n seconds if and only if n is at most 9223372036 |
| QueueSignal.WaitPositiveIff | internal/qoder/queue.go:48-58 | for every message, the wait is positive if and only if the message is recognised and carries no readable positive delay, or one whose nanoseconds leave the sign bit of 64 bits clear |
| QueueSignal.WaitCanBeNegative | internal/qoder/queue.go:48-58 | a message with a delay of 9223372037 seconds, at which the wait is negative |
| QueueSignal.DepthDoesNotMatter | internal/qoder/queue.go:28-58 | escaped once or more (section 7 of RFC 8259), a message is recognised if and only if it shows a marker read leniently, and the delay is the same at every depth from one on |
| QueueSignal.PatternIsLenient | internal/qoder/queue.go:28-43 | what the patterns accept with spaces in the gaps, the lenient reading accepts |
| QueueSignal.RecognitionClosedUnderEscaping | internal/qoder/queue.go:28-43 | a message showing a marker is recognised at every depth from one on, whatever else it holds |
| QueueSignal.ReadsIff | internal/qoder/queue.go:31-34 | at one position the patterns read a value if and only if it is read with bare quotes allowed and no bare quote is passed |
| QueueSignal.MissedIff | internal/qoder/queue.go:31-43 | of the messages that show a marker when bare quotes are allowed, exactly those are missed that pass a bare quote at every marker |
| QueueSignal.EscapedQuotesAreSeen | internal/qoder/queue.go:31-43 | where every quote has a backslash before it nothing is missed |
| QueueSignal.BareJsonNotRecognised | internal/qoder/queue.go:31-43 | an instance: an unescaped quoted code is not recognised, though its escaped form is |
| QueueSignal.ControlCanSpellMarker | internal/qoder/queue.go:31-43 | escaping a control character can spell a marker that was not there |
| QueueDepth.DelayAtIff | internal/qoder/queue.go:33-34 | in text without control characters the delay pattern captures where the lenient reading finds a delay if and only if no bare quote is passed there, and otherwise further on or nowhere |
| QueueDepth.SameWaitAtEveryDepth | internal/qoder/queue.go:48-58 | a recognised message of that kind asks for the same wait unescaped and escaped any number of times |
| QueueDepth.WaitCanDependOnDepth | internal/qoder/queue.go:48-58 | an instance: a delay of five seconds behind a bare quote is missed, and found once the message is escaped |
| QueueDepth.ControlCanSpellDelay | internal/qoder/queue.go:33-34 | escaping a carriage return can spell a delay that was not there |
| QueueShape.ReadsIsSpells | internal/qoder/queue.go:31-34 | at one position the patterns read a value if and only if the text there is spelled as they say |
| QueueShape.QueueErrorIff | internal/qoder/queue.go:31-43 | a message is recognised if and only if some position spells one of the three markers |
| QueueShape.DelayIsLeftmost | internal/qoder/queue.go:48-58 | the delay is the number at the first position that spells one |
| QueueShape.DefaultWait | internal/qoder/queue.go:48-58 | a recognised message without a readable positive delay asks for thirty seconds |
| QueueShape.QuotaErrorIff | internal/qoder/transport.go:429-436 | a message is a quota message if and only if it holds the quota code or the pricing URL's name |
| QueueShape.StatusHidesNothing | internal/qoder/transport.go:421-423 | the status line in front of a message neither hides nor adds a wait |
| BodyCodec.BuildPairs | internal/qoder/encoding.go:17-23 | the pairs of the tables, symbol and substitute alternating |
| BodyCodec.Alphabets | internal/qoder/encoding.go:9-15 | both alphabets have 65 different symbols |
| BodyCodec.ReplaceUndone | internal/qoder/encoding.go:14-15 | the replacement by the pairs of distinct symbols is undone by the reverse pairs |
| BodyCodec.Base64RoundTrip | internal/qoder/encoding.go:29-45 | base64 decodes what it encodes, for every byte string, with four symbols per started group of three |
| BodyCodec.SwapTwice | internal/qoder/encoding.go:30-31 | the swap of thirds is its own inverse for every length |
| BodyCodec.BodyRoundTrip | internal/qoder/encoding.go:25-46 | every body comes back from its encoding, which has 4*ceil(n/3) symbols and no padding sign |
| BodyCodec.EncodingInjective | internal/qoder/encoding.go:25-33 | different bodies have different encodings |
| BodyDigits.Base64Digits | internal/qoder/encoding.go:29 | the standard text is the body's digits in base 64, with zero bits and padding behind its end |
| BodyDigits.EncodedDigits | internal/qoder/encoding.go:25-33 | each symbol of the encoded body is the substitute for the digit at the place it comes from |
| BodyDigits.DecodesIff | internal/qoder/encoding.go:45 | a base64 text without line ends decodes if and only if it has symbols of the alphabet only, in fours, with one or two padding signs at most, at its end |
| BodyDigits.DecodedDigits | internal/qoder/encoding.go:45 | the decoded bytes and the symbols are the same number, in base 256 and in base 64; bits behind the last byte are not looked at |
| BodyDigits.LineEndsIgnored | internal/qoder/encoding.go:45 | line ends anywhere in a base64 text make no difference |

## Left out

- HTTP, request building, signing and encryption, and the network itself: their outcomes are parameters.
- Decoding JSON bodies into structs, and what a valid upstream payload means: a parameter of the parser.
- The preamble of `chat` (body limit, request parsing) and `ValidateCapabilities`: single branches.
- `SanitizeSnippet`, API keys, CORS, admin and health endpoints, `Statuses` and `AdminEntries`: plumbing over `Snapshot`.
- The login command's `Upsert` while the server runs, whose account a later snapshot of the pool overwrites.
- File modes, fsync and the temporary file: a write either replaces the file at the rename or leaves it alone.
- The order that `sort.Slice` leaves among equal IDs: the model keeps the order given there.
- Idle timers and cancellation beyond an abort that ends a parse or a queue wait; the backoff sleep between 5xx retries has no effect in the model.
- A client whose connection fails while the relay writes; `SSEWriter.WriteEvent` and `Parser.ParseSSE` cover failing writes one by one.
- Wrap-around of duration sums in the failover loop, which needs a configured budget near 2^63 nanoseconds.
- The catalog and the cache of transports inside a failover run: each pass gets an arbitrary model list and transport, and their own rules are proved in `catalog.dfy` and `transport_cache.dfy`.
- FailoverBlame.OnlyBlameCostsHealth: holds for runs that other requests leave alone, because another request may mark any entry.
