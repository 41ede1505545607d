# Verified model of codex-proxy-rs

codex-proxy-rs sits between OpenAI-style clients and the ChatGPT Codex backend. This project
models its four stateful parts in Dafny and proves what they promise.

**The SSE stream pipeline** (`SseFraming`, `SseReader`, `Chunks`, `Transformer`, `ChunkGrammar`,
`UpstreamPayloads`, `Aggregation`, `Conservation`, `ToolCalls`, `Outlet`, `PingDeletion`, `Relay`,
`RelayEvents`, `RelayGuarantees`, `PassThrough`, `Agreement`).
An upstream body arrives in arbitrary pieces. A cancellable reader turns it into events, a stateful
transformer turns events into chat-completion chunks, and either a relay streams those downstream
between keepalive pings or an aggregator folds them into one completion. `SseFraming.Decode` is the
one-shot reading: split at LF, classify lines, split at boundaries, join the data of each block.
The reader class keeps `consumed` and `delivered` histories and its invariant ties them to the
one-shot reading of the consumed bytes, at every poll and whether or not a call in flight was
dropped. The relays run one poll of their `select!` per `Step`: what arrived, the clock, and which
branch is tried first are parameters, so a list of turns is any chopping of the bytes with any timer
behaviour. A client connection may break after any byte. Both drivers bound the polls that a relay
can make after its upstream ended by the bytes that arrived and the pings written since
(`Relay.Overdue`), so a relay returns whatever the schedule. What a payload says is read off the parsed
value (`UpstreamPayloads`), and the table `Transformer.ObeysEvent` gives, for each kind of event, the
chunk that the client is sent and what is remembered. The outcomes of both relays and of the
aggregator are stated on the payloads of the body alone.

**Router mode** (`Accounts`, `RouterProtocol`, `Failover`, `Affinity`). The account pool is a
class with a ticket counter and two cooldown tables, proved against the history of recorded
cooldowns. The request handler is a step protocol: any number of requests advance one atomic step at
a time, in any order, over one pool, one pin store and one clock. `Affinity` follows a conversation
through whole runs: the turns of a growing transcript have one key, and each goes to the account that
answered the turn before it. Requests may overlap, and a request whose client has gone away is one
that makes no further step.

**OAuth credentials** (`AuthFile`, `TokenRotation`, `TokenChain`, `SingleFlight`). The file lives on a disk where data and
directory entries are durable only once synced. Tasks share one mutex; requests, background ticks,
forced refreshes, admin pushes, cancellations, kernel writeback and power loss interleave freely. A
cancelled task releases the mutex, while a rename it had in flight may still land at any later time.

**String cores** (`Text`, `Requests`, `Conversation`, `ConversationHead`). Trimming, name replacement,
the texts that make up a conversation head and its length-prefixed encoding, over all strings.

JSON is abstract. `Chunks.Codec` holds the parsers and printers as functions, and
`Chunks.Faithful` is what is assumed of them: encoded JSON is one line without CR, is never the
sentinel, a printed chunk reads back (unless its `created` is null or does not fit `i64`), and
neither the sentinel nor the empty text is JSON. `AuthFile.RoundTrips` is the same assumption for
the credentials record. `Witnesses` builds a codec and a format that meet them. The hash of a
conversation head is a function parameter.

Where the code differs from what one might expect, the model follows the code:

- The reader strips one trailing CR from every line, so a payload with a line ending in CR does not
  survive being written and read again; `SseFraming.RoundTrip` gives the exact condition.
- Pending data is flushed at the end of the body and a whitespace-only line is an event boundary,
  unlike sections 9.2.5 and 9.2.6 of the WHATWG HTML Living Standard.
- A chunk without a sequence number has `created: null`, which the aggregator cannot read back, so
  its text is skipped. `Conservation.TextsAreConserved` speaks of the readable events only.
- After a second `response.created` the tool indices start at 0 again and the aggregator merges
  distinct calls: `ToolCalls.RestartLosesCall` shows it for every run, `ToolCalls.RestartMergesCalls`
  on the shortest one. `ToolCalls.ConservedExactlyOnTrack` gives the exact condition under which the
  tool calls are conserved throughout a run: every response announces its items in the order of the
  run so far, and non-empty arguments come only for items announced since the latest
  `response.created`. A run with one response always meets it.
- The refresh tokens in the file do not always form one chain, because a cancelled task's rename may
  land while another task refreshes. `TokenChain.ChainedExactlyWhenTimely` gives the exact condition:
  no rotation is renamed into place, by its own task or later, after a new refresh token entered the
  file since the rotation read the one it was granted on. The code has no such guard. There are two
  ways to break it. The other refresh completes first and the late rename then replaces the newer,
  acknowledged record by the older one (`TokenChain.LateRenameBreaksTheChain`); or the rename, of a
  refresh or of an admin push, lands while the other task waits for its reply, and that task's own
  rename breaks the chain (`TokenChain.LandingUnderARefreshBreaksTheChain`). The file stays readable
  in every case.
- A retry can fail to use a healthy-looking sibling: `pick` returns the pool's first account when
  all others are tier-gated. `Accounts.RetryFindsAnother` gives the exact condition.

## Model

| member | source | states |
|---|---|---|
| SseFraming.BoundaryIffBlank | src/relay.rs:131-135 | a line closes an event if and only if it is all ASCII whitespace, CR included |
| SseFraming.DataLineMeaning | src/relay.rs:131-146 | a line is data if and only if `data:` starts it, one space after the colon and one trailing CR not counted; comments and other fields are skipped; a trailing CR never matters |
| SseFraming.LineStep | src/relay.rs:114-154 | one more line closes the pending block, joins it or is skipped, and changes nothing else of the one-shot reading |
| SseFraming.AtMostOneEventIsFlushed | src/relay.rs:95-113 | the end of the stream adds at most one event to the complete ones and changes none |
| SseFraming.ReceivedGrows | src/relay.rs:98-122 | bytes that arrive later never change or remove an event that was complete |
| SseFraming.FrameStep | src/relay.rs:164-175 | a written frame reads as exactly one event with nothing pending after it |
| SseFraming.PingStep | src/relay.rs:247-252 | a ping comment is invisible to the reader and leaves nothing pending |
| SseFraming.ReadBack | src/relay.rs:131-175 | reading back any mix of frames and pings gives all payloads in order, each line short of one trailing CR |
| SseFraming.RoundTrip | src/relay.rs:131-175 | the frame round trip, with pings anywhere, is exact if and only if no payload line ends in CR, empty and multi-line payloads included |
| SseFraming.TrimUnpads | src/relay.rs:326-326 | what is trimmed off a payload is exactly the ASCII whitespace around it |
| SseReader.PiecesMakeBody | src/relay.rs:95-113 | a body cut into any pieces is the pieces put together, and ends where it is closed or breaks |
| SseReader.UnclosedEvent | src/relay.rs:104-113 | an event whose blank line never came is yielded at the end of the body and lost when the body breaks |
| SseReader.SseEventReader.ReadUntil | src/relay.rs:103-103 | reads up to and including the first LF, or keeps the partial line; no byte is lost or repeated |
| SseReader.SseEventReader.ProcessLine | src/relay.rs:128-146 | returns true exactly for a boundary and collects exactly the data payload |
| SseReader.SseEventReader.TakePendingEvent | src/relay.rs:148-153 | yields the pending lines joined by LF, once |
| SseReader.SseEventReader.NextEvent | src/relay.rs:95-122 | every poll keeps yielded events equal to the one-shot reading of the bytes consumed, whatever the arrivals and however often the call was dropped; a poll that yields none has yielded all there is so far; each event brings the end of the body closer |
| SseReader.SseEventReader.Drop | src/relay.rs:74-77 | dropping the call in flight loses nothing |
| SseReader.EventsGrow | src/relay.rs:95-122 | events of a body so far are a prefix of the events of the body however it goes on |
| Transformer.SSETransformer.constructor | src/transform/mod.rs:61-82 | starts with nothing announced, and with the trimmed model or `gpt-5` |
| Transformer.SSETransformer.ResetResponseState | src/transform/mod.rs:84-96 | a new response starts without role, tools or indices and keeps the response id |
| Transformer.SSETransformer.RecordTool | src/transform/mod.rs:349-362 | a new item gets the next index, a known one keeps its own; the three maps stay one table whose indices are a bijection |
| Transformer.SSETransformer.Say | src/transform/mod.rs:98-113 | the role chunk is sent at most once, before the chunk proper |
| Transformer.SSETransformer.HandleOutputItemAdded | src/transform/mod.rs:318-388 | the handler with its three maps implements the announcement on the ordered tool list |
| Transformer.SSETransformer.HandleFunctionCallArgumentsDelta | src/transform/mod.rs:390-428 | the handler implements the arguments delta on the ordered tool list; unannounced items are swallowed |
| Transformer.SSETransformer.HandleCreated | src/transform/mod.rs:198-217 | the handler implements a new response, even a malformed one |
| Transformer.SSETransformer.HandleCompleted | src/transform/mod.rs:246-280 | the handler implements the finish chunk and changes no state |
| Transformer.SSETransformer.HandleReasoning | src/transform/mod.rs:282-316 | the handler forwards deltas of the first output item only |
| Transformer.SSETransformer.Transform | src/transform/mod.rs:155-428 | refines the three-field state machine on every payload, and obeys the table: a blank is swallowed, the sentinel ends the stream, text, reasoning, tool calls, arguments and the finish are printed as their chunk after a role chunk that is still due, and a payload that does not parse or deserialize is rejected |
| Transformer.AnswerObeys | src/transform/mod.rs:155-428 | the state machine answers every payload as the table says, read off the parsed value |
| Transformer.ModelIsKept | src/transform/mod.rs:61-72 | a model is kept without the whitespace around it, and a blank one becomes `gpt-5` |
| UpstreamPayloads.InterpretMeans | src/transform/mod.rs:155-196 | every payload is blank, the sentinel, a usable typed event that is taken as it is, or unusable |
| ChunkGrammar.SegmentIsGrammatical | src/transform/mod.rs:198-428 | between two `response.created` events of any run: the role at most once and before content, reasoning and tools; arguments only for announced indices; announcements with non-empty id and name and consecutive indices; finish reason `tool_calls` if and only if something was announced |
| ChunkGrammar.SegmentEndsStream | src/transform/mod.rs:155-217 | the segments are consecutive stretches of what is sent |
| ChunkGrammar.ChunksCarryTheResponseId | src/transform/mod.rs:115-135 | all chunks of a response carry its id and the model |
| Aggregation.AddFramesTo | src/buffered.rs:166-222 | the loop over frames, choices and tool deltas computes the fold, skipping unreadable frames |
| Aggregation.CallsInOrder | src/buffered.rs:249-258 | the calls come out by increasing index |
| Aggregation.ConsumeEvent | src/buffered.rs:160-222 | one event of the loop; the sentinel does not stop it, a rejected event does |
| Aggregation.BufferChatCompletion | src/buffered.rs:143-280 | the buffered completion depends only on the body and how it ended, not on how it was delivered |
| Conservation.ConsumeFollowsTheRun | src/buffered.rs:160-223 | the aggregator folds exactly the chunks of the transformer run |
| Conservation.BufferedOutcome | src/buffered.rs:160-167 | the path fails as a transform error if and only if some payload is unusable, a sentinel before it notwithstanding, and as a read error if and only if there is none and the body broke |
| Conservation.TextsAreConserved | src/buffered.rs:178-201 | content and reasoning are the in-order concatenation of the readable deltas; finish reason and usage are the last completion's |
| Conservation.CompletionIsConserved | src/buffered.rs:143-280 | for every body without an unusable payload the path succeeds, and everything in the completion but its tool calls is that of the typed events the payloads carry: id and creation time of the first chunk that has one, model, role, texts, finish reason and usage, each with its default, reasoning absent if there is none |
| ToolCalls.ToolCallsAreConserved | src/buffered.rs:202-260 | entry k of `tool_calls` is the k-th distinct announced item, and its arguments are exactly the deltas for that item after its announcement, for every body without an unusable payload whose events are readable and on track |
| ToolCalls.ConservedExactlyOnTrack | src/transform/mod.rs:84-96 | for readable events with distinct call ids, the tool calls are conserved at every point of the run if and only if every response announces its items in the order of the run so far and no arguments come for an item the current response has not announced |
| ToolCalls.NoRestartIsOnTrack | src/transform/mod.rs:84-96 | without a `response.created` after an announcement the condition holds |
| ToolCalls.ToolsAreCurrent | src/transform/mod.rs:349-362 | in every run the transformer's tools are the items announced since the latest `response.created`, in order |
| ToolCalls.RestartLosesCall | src/buffered.rs:202-222 | in every run, the first new item announced after a `response.created` overwrites the call at index 0: one more item, no more calls |
| ToolCalls.RestartMergesCalls | src/transform/mod.rs:84-96 | a run of three events in which two distinct calls become one |
| Outlet.Downstream.WriteAll | src/relay.rs:164-175 | a failed write leaves the client with a prefix of what was meant |
| Outlet.Downstream.BrokenIffOverLimit | src/relay.rs:164-175 | a client is lost if and only if more was to be written than it takes |
| Outlet.Downstream.WriteDataFrame | src/relay.rs:164-175 | writes the frame of the payload, or a prefix of it if the client is gone |
| Outlet.FrameByLines | src/relay.rs:164-175 | an event is written as each line of the payload after `data: ` and then an empty line |
| Outlet.Downstream.Ping | src/relay.rs:247-253 | a ping is written only when one interval has passed since the end of the last write |
| Relay.RunStops | src/relay.rs:237-310 | an ended relay serves nothing more, and what was sent stays sent |
| Relay.OwedGrows | src/relay.rs:237-318 | later arrivals never change the output of a finished relay and only extend that of a running one |
| Relay.RewriteRelay.Handle | src/relay.rs:258-309 | one event is served as owed: frames, sentinel, passed-through chunk or error |
| RelayEvents.RunRelaysNext | src/relay.rs:258-309 | in every run the next event is relayed by its kind: the sentinel and a fatal event end the relay, JSON without a type is relayed trimmed if it is a chunk and else dropped, a blank is dropped, a typed event is answered by the table, or relayed itself if it says nothing and is a chunk |
| RelayEvents.FirstStopIsFirst | src/relay.rs:258-309 | the event that decides the outcome is the first sentinel or fatal one |
| RelayEvents.OwedEndsAs | src/relay.rs:237-318 | the outcome is a transform error if and only if a fatal event comes before any sentinel, complete if and only if a sentinel comes first or the body ends without either, an upstream error if and only if it breaks without either, each with its closing frames and the error frame for that very event |
| Relay.RewriteRelay.TerminateWithError | src/relay.rs:177-185 | error frame and sentinel, best effort |
| Relay.RewriteRelay.Step | src/relay.rs:237-310 | every poll keeps the frames written equal to those owed for the events read, whatever branch is taken; a due ping is written when the timer is tried first or the upstream is silent; any other poll serves the next event, or has served all that arrived, and after the end of the upstream it returns or comes closer to it |
| RelayGuarantees.RewriteSseStream | src/relay.rs:221-318 | for every schedule the client got a prefix of what is owed, and is lost if and only if it takes fewer bytes than were to be written; the relay returns once its upstream ended, within as many further polls as bytes arrived and pings were written since; if no write failed, the client got all of it, the outcome is decided by the events of the body and the decoded bytes end well; pings only after an idle interval |
| RelayGuarantees.RewriteEndsWell | src/relay.rs:179-318 | the decoded output has exactly one `[DONE]`, last, and just before it, whenever an error is returned, the error frame for the broken body or for the first event that was given up on |
| PingDeletion.DeletingPings | src/relay.rs:247-252 | deleting the ping comments from the bytes a relay wrote removes exactly the pings and leaves every frame |
| RelayGuarantees.KeepaliveDoesNotInterfere | src/relay.rs:235-284 | two finished relays of one upstream wrote the same bytes once pings are deleted from the bytes, with the same outcome, for all timers and arrivals |
| RelayGuarantees.NoPingsWithoutInterval | src/relay.rs:191-200 | with a zero interval no run has a ping |
| RelayGuarantees.OpenAiStreamIsUnchanged | src/relay.rs:290-330 | a stream that already is chat-completion chunks is relayed as it is |
| PassThrough.PassThroughRelay.Step | src/relay.rs:352-384 | every poll keeps the payloads written equal to those of the events read; a due ping is written when the timer is tried first or the upstream is silent; any other poll serves the next event, or has served all that arrived, and after the end of the upstream it returns or comes closer to it |
| PassThrough.PassThroughSseStream | src/relay.rs:340-385 | for every schedule the relay returns once its upstream ended, within as many further polls as bytes arrived and pings were written since, complete at the end of the body and with an upstream error when it broke; the client is lost if and only if it takes too few bytes; else the decoded downstream is, in order, every event of the body that is not empty, the sentinel without padding, and nothing else |
| PassThrough.PassThroughPreserves | src/relay.rs:370-384 | the decoded downstream is the forwarded list, each line short of one trailing CR, and exactly that list if and only if no line ends in CR |
| PassThrough.PassAllForwards | src/relay.rs:370-384 | every event that is not empty is forwarded once, in order, unchanged but for the padding of a sentinel, and nothing else is |
| PassThrough.PassAllKeeps | src/relay.rs:370-384 | events that are neither empty nor a sentinel are forwarded as they are |
| PassThrough.OneEventPassed | src/relay.rs:370-384 | an empty event leaves no trace, a padded sentinel becomes one sentinel at its place, any other event stays |
| PassThrough.ErrorRelaysAPrefix | src/relay.rs:357-358 | after a read error the client has a prefix of the list |
| Agreement.RunInStep | src/buffered.rs:160-223 | on orderly events relay and aggregator stay in step |
| Agreement.StreamingAgreesWithBuffered | src/buffered.rs:143-280 | folding the decoded output of the relay gives the completion of the buffered path |
| Accounts.AccountPool.IsCooling | src/router.rs:128-134 | cooling if and only if a failure was recorded less than 60 s ago |
| Accounts.AccountPool.IsModelCooling | src/router.rs:144-153 | gated if and only if a tier gate for this model was recorded less than 60 s ago |
| Accounts.AccountPool.Cooldown | src/router.rs:136-142 | records the failure and affects no other account; the transition of the step protocol |
| Accounts.AccountPool.CooldownModel | src/router.rs:155-168 | records the tier gate and affects no other account or model; a no-op without a model; the transition of the step protocol |
| Accounts.AccountPool.PinnedAccount | src/router.rs:170-177 | the pinned account if and only if it is known and neither cooling nor gated |
| Accounts.AccountPool.Pick | src/router.rs:186-218 | one ticket, then the first account of the three ranked passes in rotation order |
| Accounts.PickIsTotalAndRanked | src/router.rs:179-218 | always an account; healthy if one exists, else permitted if one exists, else the first |
| Accounts.PickFollowsRotation | src/router.rs:186-218 | the account picked is the first in rotation order from the ticket: none passed over was as good |
| Accounts.SteadyAccountIsEnough | src/router.rs:191-218 | with cooldowns recorded and time passing during a pick, an account healthy at every look makes the pick one that was healthy when looked at, and likewise for permitted ones |
| Accounts.QuietPick | src/router.rs:186-218 | a pick during which nothing is recorded is the pick at one moment |
| Accounts.RetryFindsAnother | src/router.rs:464-466 | the retry uses a different account if and only if one is not gated or the first account is not the failed one |
| Accounts.ModelCooldownIsScoped | src/router.rs:43-49 | a cooldown for one model changes no pick or pin check for another |
| Accounts.RoundRobinIsFair | src/router.rs:191-202 | with all healthy, k rounds of consecutive tickets pick every account exactly k times |
| RouterProtocol.RunKeepsInv | src/router.rs:370-547 | every interleaving keeps each request's trace in the shape of its phase, and the store equal to the last write per key |
| RouterProtocol.PinsAreEarned | src/router.rs:525-547 | a stored pin names a pool account that gave a terminal response to that conversation |
| RouterProtocol.AtMostTwoSends | src/router.rs:425-523 | at most two sends, the second to a different account after a retry verdict |
| RouterProtocol.FailedRequestsUnpin | src/router.rs:460-462 | a request whose attempts all end in a retry writes no pin and clears the one of its conversation |
| RouterProtocol.CooldownsAreEarned | src/router.rs:452-501 | the cooldown tables are exactly those of the recorded failures, each of them a logged failure of the account by that request, and a gate one for the request's model |
| Failover.VerdictMeans | src/router.rs:253-365 | an attempt is retried if and only if it did not connect, or met 429, a 5xx or a 400 with the tier-gate marker, and only the last gates the model instead of cooling the account |
| Failover.SendIs | src/router.rs:425-523 | a send is logged with the verdict on what it met, and that verdict decides whether the request answers, records the failure or ends |
| Failover.FirstChoice | src/router.rs:405-423 | a usable pin is followed without a ticket; any other request takes one ticket and goes to a healthy account if there is one |
| Failover.FailsOver | src/router.rs:464-521 | after a failure the request takes one ticket and retries on another account if and only if another is not gated or the first of the pool is not the failed one, on a healthy one if possible; else it ends with the first failure |
| Failover.NoRetryOnlyWithoutAnother | src/router.rs:464-521 | in every run, a request that ends with its first failure had no other account to try when it picked |
| Failover.EveryRequestEnds | src/router.rs:370-523 | eight steps end every request, whatever the others do in between |
| Failover.FailuresAreRecorded | src/router.rs:452-501 | in every run each failure of a request is recorded against the account, or as a gate for the model, before it goes on; a second attempt that did not connect never is |
| Affinity.TurnsStick | src/router.rs:405-547 | in every run, whatever overlaps, the first send of a turn goes to the account that answered the turn which last wrote the conversation's pin before the look-up, unless a failure of that account, or a tier gate it met for the turn's model, was recorded less than 60 s before the turn chose |
| Affinity.ChoiceSticks | src/router.rs:405-423 | a looked-up turn uses that pin, drawing no ticket, if and only if no such failure or tier gate was recorded less than 60 s ago |
| Affinity.TranscriptHasOneKey | src/conversation.rs:67-99 | all turns of a growing transcript have one key |
| Affinity.AnsweredTurnPins | src/router.rs:437-441 | a turn that ended with an answer has written its pin |
| Affinity.ConversationSticks | src/router.rs:389-547 | the turns of a growing transcript, whatever models they name, are all filed under one key, so each sticks to the account that answered the turn which last wrote its pin |
| Requests.ReplaceNames | src/request.rs:44-50 | the loop computes the replacements in list order |
| Requests.ReplaceIsReweave | src/request.rs:44-50 | replacement keeps the text between the matches |
| Requests.ReplaceBringsNothingIn | src/request.rs:44-50 | no pass creates or brings back a listed name across a boundary |
| Requests.ReplaceNamesIsComplete | src/request.rs:29-50 | the output contains none of the listed names |
| Requests.ReplaceNamesIsIdempotent | src/request.rs:29-50 | a second application changes nothing; the first changes a text if and only if a name occurs in it |
| Conversation.ExtractInstructions | src/request.rs:156-193 | the loops compute the instructions |
| ConversationHead.MessageContributes | src/request.rs:156-193 | a message adds to the instructions exactly what the system says in it, names replaced, the texts of its parts one per line |
| ConversationHead.UserTextIsFirst | src/request.rs:198-247 | the user text is the first that is not blank, and there is none if and only if no user says anything |
| ConversationHead.InputComesFirst | src/request.rs:198-247 | `input` is asked before the messages, and only its parts count there |
| ConversationHead.HeadHasNoNames | src/request.rs:156-247 | neither the instructions nor the user text contain a listed name, across the joints and after trimming |
| ConversationHead.ExplicitKeyIff | src/conversation.rs:38-79 | the trimmed `x-conversation-id` is the key if and only if it is not empty, takes at most 256 bytes and has no control character; any other header counts as none |
| Conversation.PayloadIsInjective | src/conversation.rs:81-94 | two heads have the same pre-hash payload if and only if they are equal, for all texts |
| Conversation.HeadKeysAgreeIff | src/conversation.rs:67-99 | with a collision-free hash two head keys agree if and only if the heads do |
| Conversation.KeyIsStable | src/conversation.rs:67-99 | the key never changes as a transcript grows by non-system messages, whatever the model |
| AuthFile.WriteStepIsSafe | src/credentials/fs.rs:143-183 | every system call of a replacement leaves a complete record in place: the old one up to the rename, the new one after |
| AuthFile.CrashLeavesDurableRecord | src/credentials/fs.rs:172-182 | after a crash the file reads back as the record last made durable |
| TokenRotation.RunKeepsInv | src/credentials/refresher.rs:56-249 | every interleaving with crashes, cancellations and renames still in flight keeps the file, its history and the lock holder consistent |
| TokenRotation.AlwaysReadable | src/credentials/fs.rs:63-99 | from any readable file, the file stays readable with its id token and account, now and after one more crash |
| TokenRotation.RefreshTokenIsNeverLost | src/credentials/refresher.rs:66-73 | a file with a refresh token never loses it, now and after one more crash, not even to an empty one in a reply |
| TokenRotation.CrashLeavesOldOrNew | src/credentials/fs.rs:112-183 | at every crash point of one replacement the old or the new record is found |
| TokenRotation.AcknowledgedIsDurable | src/credentials/fs.rs:172-183 | what was durable when a writer was told Ok stays in the history of the file, and no later crash finds anything before it |
| TokenChain.AcknowledgedIsNeverUndone | src/credentials/fs.rs:160-183 | in runs without a stale rename, the file at any later time, and after a crash, holds the acknowledged version or a later link of its chain |
| TokenRotation.OkMeansStored | src/credentials/fs.rs:172-183 | Ok means the record is in the history and durable, and in the file unless a cancelled rename has landed since its own |
| TokenRotation.WriteCompletes | src/credentials/fs.rs:143-183 | a replacement that meets no failure stores its record durably within five system calls |
| TokenRotation.RefreshCompletes | src/credentials/refresher.rs:55-85 | a lock holder with a token inside its buffer sends one grant, stores exactly the rotated record durably and releases the lock |
| TokenRotation.PushCompletes | src/credentials/refresher.rs:219-230 | a push onto a stored file stores exactly the access token, refresh token and expiry pushed, with the id token and account kept, durably, sends no grant and releases the lock |
| TokenRotation.BootstrapCompletes | src/credentials/refresher.rs:231-249 | a push that finds no file creates a readable one that survives a crash if it names an account, and touches nothing if not |
| TokenRotation.RefreshIsServed | src/credentials/refresher.rs:55-215 | with a free mutex, a call whose refresh is due at the time, or forced, sends one grant then and stores exactly the rotated record, durably and in the file, the expiry counted from that time |
| TokenRotation.PushIsServed | src/credentials/refresher.rs:219-230 | with a free mutex, a push puts exactly what the admin sent into the file, for good |
| TokenRotation.GrantsUseTheStoredToken | src/credentials/refresher.rs:134-199 | a grant carries the refresh token its task read under the mutex, never an empty one if the file had one at the start, and a request or tick sends one only if the token it read was inside the expiry buffer |
| TokenChain.TokensFormOneChain | src/credentials/refresher.rs:55-85 | each rotation was granted on exactly the token of the version before it, at every point of every run without a stale rename |
| TokenChain.ChainedExactlyWhenTimely | src/credentials/refresher.rs:55-85 | when every token pushed or received is new, the tokens form one chain at every point of a run if and only if no rotation is renamed into place, by its task or after its cancellation, once a new token entered the file since it read its own |
| TokenChain.LateRenameBreaksTheChain | src/credentials/fs.rs:160-171 | from every state with a rotation's rename in flight that is cancelled and overtaken by a complete refresh of a request, tick or forced refresh: the token is granted twice, and the older rotation replaces the acknowledged record |
| TokenChain.LandingUnderARefreshBreaksTheChain | src/credentials/refresher.rs:55-85 | from every such state, for a rotation or a push: landing between the other task's grant and its reply keeps the chain, and the other task's own rename breaks it |
| SingleFlight.NoGrantBeforeExpiry | src/credentials/refresher.rs:104-199 | after a refresh no request or tick sends a grant until the new token enters the buffer, crashes after the record is durable included |
| SingleFlight.OneGrant | src/credentials/refresher.rs:98-199 | from a fresh process, however many requests and ticks interleave, are cancelled before their grant or survive a crash: at most one grant and one rotation until the new token enters its buffer, if the refresh under way meets no failure |
| SingleFlight.RotationCalms | src/credentials/refresher.rs:182-194 | once the new record is renamed into place nobody is on the way to a grant |
| SingleFlight.LongLifetimeIsOutOfBuffer | src/credentials/refresher.rs:41-53 | a new token is out of the buffer if and only if its lifetime exceeds the buffer |

## Left out

- HTTP plumbing, header sanitising, middleware and the byte streaming of proxied responses: library calls.
- JSON parsing and printing, and the extraction of typed payloads from a JSON value: abstracted by `Codec` and `Event`.
- Token usage conversion and its `i64` sums: the completion event carries the converted usage.
- The `on_event` callback and the texts of error messages: an error frame is a function of the failure.
- Flush failures: a connection fails in a write.
- The aggregator for Responses streams (`buffer_responses_response`): a search with no state to relate.
- Redis, pin expiry and store outages: the store is a map.
- Parsing of the account list: the pool is given, with distinct slugs.
- The wrap-around of the ticket counter after 2^64 picks: tickets are unbounded.
- RouterProtocol.RunKeepsInv: the pin check and a whole pick are each one step at one time, because the cooldown reads inside them only choose the account, which the trace invariant does not depend on; `Accounts.SteadyAccountIsEnough` covers picks that others interrupt.
- Affinity.TurnsStick: two turns in flight at once may be answered by different accounts, since both look up the pin before either writes it; each sticks to the pin it found.
- SHA-256 and the rendering of keys as UUIDs: a parameter.
- The values returned by `get_credentials` (stale or new token): only the file and the grants are modelled.
- Cancelled file operations other than a rename that the runtime completes in the background: they touch only a temp file, or are a directory sync, which the kernel may do at any time anyway.
- Creation of missing parent directories, file modes and an absent parent path: the directory exists.
- TokenRotation.AlwaysReadable: starts from a stored, readable file; the bootstrap of an absent file by a push is covered by `TokenRotation.BootstrapCompletes` only when no step of it fails.
- A failing existence check in a push: the code takes the file for absent and may overwrite it, the model gives up.
- Expiry times so close to the `i64` limits that subtracting the buffer wraps: integers are unbounded there.
- The system clock stepping backwards: the clock is monotone.
- Model and effort tables, prompts and the rewriting of request bodies: finite lookups and key lists.
- Metrics, tracing and configuration.
