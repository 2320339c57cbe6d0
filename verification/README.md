# A verified model of Ashkelon's relay

Ashkelon is a gateway between coding agents and model providers. User hooks watch a session and queue *pings*; the relay
inserts them into the agent's next request, keeps each of them at the place it was first shown, or wakes an idle agent with
their text. The relay also trims and strips request bodies, reads every response as it is forwarded, and cuts a stream that
passes a limit. This project models that behaviour in Dafny and proves what it guarantees.

`dafny verify dfyconfig.toml` checks the whole project. Where the source changes a record step by step, the model has a
class with the same fields and loops; each of its methods is proved equal to a function, and the theorems are about those
functions and about runs of them.

| part | modules |
|---|---|
| the hook engine: one session's record, its books, every interleaving | `Session`, `SessionRecord`, `Ledger`, `SessionLaws`, `Protocol`, `ProtocolLaws`, `WakeLaws`, `RequestLaws` |
| ping injection, what the agent is shown, and prefix stability over whole runs | `Pings`, `Injection`, `PingLaws`, `DeliveryLaws`, `InjectionLaws`, `PrefixChain` |
| what a request tells the hooks | `Extract`, `ExtractLaws` |
| request rewriting, and the whole request path | `Rewrite`, `RewriteLaws`, `RewriteTexts`, `Pipeline` |
| event streams | `Sse`, `SseLaws`, `Stream`, `Utf8` |
| response parsing on three wires | `Usage`, `Reports`, `Anthropic`, `AnthropicRecord`, `AnthropicLaws`, `Responses`, `ResponsesRecord`, `ResponsesLaws`, `Chat`, `ChatRecord`, `ChatLaws`, `TurnLaws` |
| guarded forwarding and the tail of a cut stream | `Forward`, `ForwardLaws`, `LimitLaws`, `CutTail` |
| install and uninstall; the home overlay | `Install`, `InstallLaws`, `ShellWrapper`, `Overlay` |
| JSON documents and their printing, texts put together from pieces, options | `Json`, `Printing`, `Texts`, `Wrappers` |

The main results:

* **Every run of a session** (`ProtocolLaws`): whatever the order of hook runs, requests, attachments and wakes - the wake
  being two locked sections with a gap - no failure is committed as delivered twice, every accepted ping is in exactly one
  place, the cap holds, one runner owns each slot and executes the trigger it took, the newest trigger is never forgotten,
  and no failure outlives a pass.
* **Prefix stability** (`PrefixChain.ReturnedBodiesExtendEachOther`, `Pipeline.RelayedBodiesExtendEachOther`): along a steady
  run the bodies actually handed back, with the places of one-shot signals erased, extend one another; the second states it
  from the client's own conversations, through rewriting, under the exact condition on which rewriting keeps prefixes.
* **Injection can be taken out again** (`InjectionLaws`), splits tool outputs exactly in one described case, and never makes
  a prompt out of a failure ping (`Extract.PingsAreNotPrompts`).
* **What is delivered is what waited**: the body an attachment returns shows every waiting ping, text and images, in order and
  at the final item (`DeliveryLaws.DeliveryShowsTheOutbox`), and the text of a wake holds every text that waited at its snapshot,
  each at a place of its own (`WakeLaws.WakeSendsAndCommits`).
* **Rewriting, from the texts** (`RewriteTexts.AppliedTexts`, `RewriteTexts.AppliedReports`): on every wire and at every place,
  a tool output's text comes out cut exactly when it is over the limit, the user's texts come out stripped, and the report names
  exactly the passes that changed a text.
* **Chunking does not matter** (`Sse.SseSplitter.Feed`, `Stream.StreamOrBody.Feed`): the incremental parser equals a
  whole-stream reading for every way of cutting the bytes. Any list of events, sent with LF or CRLF after any line, is read back
  as exactly those events (`SseLaws.SentEventsAreRead`).
* **A response, from its events**: on each of three wires the whole summary of a stream is read off its events
  (`AnthropicLaws.SummaryOfStream`, `ResponsesLaws.SummaryOfStream`, `ChatLaws.SummaryOfStream`), and with it exactly which
  responses end a turn (`TurnLaws`).
* **A request, from its document** (`ExtractLaws.RequestFires`, `RequestLaws.RequestsInEveryRun`): which hooks a request
  triggers, with which prompt, on every wire and at the end of every run.
* **Forwarding** (`Forward.ForwardResponse`, `LimitLaws.CutExactlyWhen`): the client gets whole upstream chunks up to the first
  that fires a rule, even when monitoring panics; a response is cut exactly when it is read as events whose running count
  passes the limit, or a pattern matches the running text. What is not read as events, or not yet, is not limited.
* **Reconciling an overlay** (`Overlay.MergeConservesExactly`): for every pair of trees, it conserves all files exactly when no
  entry clashes with the directory as the entries before it leave it.

## What the model found

* With parallel tool outputs, a ping anchored at an output that another output follows stands directly in front of that other
  output (`InjectionLaws.PingsSplitOutputsExactlyWhen`). The batch anchored at the final item never does, but it comes to once
  the client appends a further output (`PrefixChain.AnOldPinComesToSplit`).
* A wake commits a ping it did not send exactly when a step during the wake queued it and no later pass, replacement,
  attachment or other wake took it (`WakeLaws.UnsentExactlyWhen`). If that ping is a failure it is never shown: it is recorded
  as delivered, and no failure with its id ever waits again (`WakeLaws.UnsentFailureIsLost`).
* A tool output that is a marker counting its own characters is its own cut: it is reported as changed although nothing changes
  (`RewriteTexts.AMarkerIsItsOwnCut`; `RewriteTexts.TrimAltersExactlyWhen` says when an item is altered).
* A text block that is empty from the start is dropped by strip rules without being reported as a change, which can break the
  prompt prefix (`RewriteLaws.AnEmptyBlockBreaksThePrefix`).
* Two failures share an id exactly when hook name and message run together to one text, wherever the name ends
  (`Pings.FailureIdsAgreeExactlyWhen`); the second of them is then refused (`SessionLaws.SecondFailureIsRefusedExactlyWhen`).
* The response limit does not reach a response that is one JSON body: a text of any length is forwarded whole
  (`LimitLaws.ALongJsonBodyIsForwardedWhole`), and such a body is cut exactly when a pattern matches the empty text
  (`LimitLaws.EachWireCutsJsonExactlyWhen`). Nor does it reach an event still pending when the stream ends, however long
  (`LimitLaws.ALongPendingEventIsForwardedWhole`): the final count passes the limit exactly when that one event takes it there
  (`LimitLaws.FinalCountIsWithinExactlyWhen`).
* Consuming Responses items twice duplicates calls that carry no id (`Responses.TwiceIsOnceExactlyWhenIdentified`).
* Wherever the forwarded bytes end, a cut tail is read as intended exactly when the line that its first line completes leaves
  pending what that first line alone would have (`CutTail.TailIsReadExactlyWhen`). One stray byte hides it, although no field
  is pending (`CutTail.AStrayByteHidesTheTail`). On a line boundary it is enough that nothing is pending
  (`CutTail.TailIsReadExactlyWhenNothingIsPending`). The condition decides what a client reads from all it was sent of a cut
  response (`ForwardLaws.CutResponseIsReadExactlyWhen`).
* A second install replaces the first one's shell block exactly on files whose markers are both absent or in order
  (`ShellWrapper.SecondInstallReplacesFirstExactlyWhen`); on the other files, however many installs follow, the start-up file
  never holds again what the first one left (`InstallLaws.ManyInstallsAreOneExactlyWhen`).
* Reconciling an overlay can cost a file whose name is the conflict name of another (`Overlay.ATakenConflictNameLosesAFile`). It
  never does when no name, there or among what the harness made, ends with the suffix (`Overlay.SuffixFreeNeverClashes`).
* `README.md:119` of the repository says a signal does not wake an idle agent; `src/hooks/mod.rs:556-563` only holds back
  signals with attachments, and the model follows the code (`SessionLaws.WakesExactlyWhen`, `SessionLaws.ATextSignalWakes`).

## Reading the model

A request body is either bytes that do not parse or a parsed tree: parsing and serialising are taken to be inverse to each
other, so a body is identified with its tree. SHA-256 ids, regular expressions, lossy UTF-8 decoding, JSON parsing and
decompression are arbitrary total functions given as parameters; `Utf8` (RFC 3629, section 3) and `Printing` (RFC 8259) write
out the encodings where bytes are sent, and there the decoder is assumed to read back what was encoded, as one that exists does
(`Utf8.ADecoderExists`). The event format is that of sections 9.2.5 and 9.2.6 of the WHATWG HTML
Living Standard with the source's two deviations: a lone CR ends no line, and the end of the stream dispatches a pending
event. Time, idleness and wake targets are choices of the schedule; a wake's result is one too.

## Model

| member | source | states |
|---|---|---|
| `SessionRecord.SessionState.constructor` | src/hooks/state.rs:45-62 | A new record is the empty session, under every cap |
| `SessionRecord.SessionState.RetainOutbox` | src/hooks/mod.rs:409-411 | `retain` in place is the order-preserving filter of the outbox and touches nothing else |
| `SessionRecord.SessionState.ApplyOutcome` | src/hooks/mod.rs:406-448 | In u32 arithmetic and under the cap, an outcome changes the record exactly as the outcome function says, and the cap still holds: no sum overflows |
| `SessionRecord.SessionState.RecordDelivered` | src/hooks/mod.rs:506-515 | Ids, durable pins and count after a delivery are those of `CommitPinned` |
| `SessionRecord.SessionState.AttemptDelivery` | src/hooks/mod.rs:506-518 | One injection attempt: on success the batch is committed and the new body and ids returned, else nothing changes |
| `SessionRecord.SessionState.AttachPings` | src/hooks/mod.rs:490-540 | The whole attach section, with its retry without old pins and its restoring of the outbox, is the attach function, and keeps the cap |
| `SessionRecord.SessionState.SweepCommit` | src/hooks/mod.rs:579-592 | The second section of the sweep commits the outbox as it now is |
| `SessionRecord.SessionState.RecordSeen` | src/hooks/mod.rs:221-261 | A request's effect on the record and the triggers it raises, in order |
| `SessionRecord.SessionState.RecordRequest` | src/hooks/mod.rs:206-262 | `RecordSeen` for what the body's conversation length and last item say |
| `SessionRecord.SessionState.RecordResponse` | src/hooks/mod.rs:300-320 | A finished response fires its tool calls, then the end of the turn with the prompt on record |
| `SessionRecord.SessionState.TakeSlot` | src/hooks/mod.rs:346-361 | The check-and-acquire: owner of a free slot, or the one coalesced rerun behind its owner |
| `SessionRecord.SessionState.NextTrigger` | src/hooks/mod.rs:372-386 | The owner's last section: take the rerun and stay owner, or free the slot |
| `Ledger.FreshIsBalanced` | src/hooks/state.rs:45-62 | A new session's books balance |
| `Ledger.OutcomeShape` | src/hooks/mod.rs:408-441 | Every outcome takes certain pings out and appends at most its own candidate; only the outbox changes |
| `Ledger.CandidateIsNew` | src/hooks/mod.rs:429-441 | An admitted failure repeats no committed or waiting id; an admitted signal is its hook's only one |
| `Ledger.OutcomeConserves` | src/hooks/mod.rs:408-441 | No outcome loses or invents a ping: accepted is waiting plus committed plus cleared, as multisets |
| `Ledger.OutcomeBalances` | src/hooks/mod.rs:394-449 | Every hook outcome keeps counters, cap, conservation, distinct ids, single signals, traced pins and anchor order |
| `Ledger.DurablePinsTraced` | src/hooks/mod.rs:508-513 | The pins a batch leaves are exactly its durable pings, in order, at the batch's anchor |
| `Ledger.PinnedBalances` | src/hooks/mod.rs:506-518 | A delivery by injection keeps the books balanced, with old pins kept or dropped |
| `Ledger.AttachBalances` | src/hooks/mod.rs:490-540 | Every attachment - first try, retry or refusal - keeps the books balanced, for every injector that checks anchors |
| `Ledger.RealInjectorChecksAnchors` | src/transform.rs:310-333 | The production injector accepts only anchors inside the conversation, on every wire |
| `Ledger.WakeBalances` | src/hooks/mod.rs:579-592 | The sweep's commit keeps the books balanced whatever was queued during the wake |
| `Ledger.SeenBalances` | src/hooks/mod.rs:221-240 | A request, compaction included, keeps the books balanced |
| `SessionLaws.AtMostOnce` | src/hooks/mod.rs:429-441 | With balanced books, no durable ping is committed under an id an earlier one had |
| `SessionLaws.WaitingIsUndelivered` | src/hooks/mod.rs:429-441 | Waiting failures have distinct ids, none of them delivered |
| `SessionLaws.PinsAreDistinct` | src/hooks/mod.rs:506-513 | Pins on record have distinct ids, all recorded as delivered |
| `SessionLaws.ReplacementIsAdmitted` | src/hooks/mod.rs:413-421 | A signal replacing a waiting one is never refused by the cap, and is then its hook's only signal |
| `SessionLaws.PassClears` | src/hooks/mod.rs:423-428 | A pass takes out exactly its own hook's pings: what is left is the others, in order and as often as they were there |
| `SessionLaws.FailureShutsOutItsNamesake` | src/hooks/mod.rs:429-441 | A failure that waits or was delivered shuts out every failure whose name and message run together to the same text |
| `SessionLaws.SecondFailureIsRefusedExactlyWhen` | src/hooks/mod.rs:429-441 | With room under the cap and no digest collision, a second failure is refused if and only if the two run together to one text |
| `SessionLaws.PromptFiresOnce` | src/hooks/mod.rs:246-318 | A prompt fires if and only if its fingerprint is not the last one; sent again it does not fire; the turn's end carries a prompt of that fingerprint |
| `SessionLaws.SeenFires` | src/hooks/mod.rs:221-261 | A request fires, in a fixed order and each at most once, exactly: a session start when it is new, a compaction when its length falls, a prompt whose fingerprint is new, a tool result when flagged; only the prompt carries anything |
| `SessionLaws.ResponseFires` | src/hooks/mod.rs:300-320 | A response fires its tool calls, by name and in order, exactly when it has some, and then the end of the turn exactly when its summary says so, with the prompt on record and the text |
| `RequestLaws.RequestsInEveryRun` | src/hooks/mod.rs:206-320 | At the end of every run: the next request fires a compaction if and only if its length is below the latest one told in the run, and a prompt if and only if its fingerprint is not that of the latest prompt |
| `SessionLaws.AttachByAcceptance` | src/hooks/mod.rs:497-539 | What an attachment does is decided by which pins the conversation accepts |
| `SessionLaws.AttachExactly` | src/hooks/mod.rs:490-540 | An attachment succeeds if and only if the final item can carry what waits (always on Responses and Chat); old pins survive if and only if they all fit; a refusal changes nothing but the pins |
| `SessionLaws.PingQueuedDuringWakeIsLost` | src/hooks/mod.rs:550-592 | A failure queued during the wake is recorded as delivered, dropped, and refused from then on |
| `SessionLaws.WakesExactlyWhen` | src/hooks/mod.rs:550-577 | A session's pings can wake it if and only if something waits and nothing that waits has attachments |
| `SessionLaws.ATextSignalWakes` | src/hooks/mod.rs:556-563 | A queued text signal is the text of a wake |
| `SessionLaws.WakeTextHoldsWhatWaits` | src/hooks/mod.rs:565-577 | The text of a wake consists of the texts of the waiting pings: in order, each at a place of its own, exactly a blank line between two |
| `SessionLaws.QuietWakeCommitsItsText` | src/hooks/mod.rs:550-592 | With the outbox untouched during the wake, the texts of what is committed are exactly what the wake text consists of |
| `Protocol.StartIsSound` | src/hooks/state.rs:45-62 | The empty system satisfies the invariant |
| `Protocol.ArriveIsSound` | src/hooks/mod.rs:346-361 | Acquiring or queueing keeps the invariant |
| `Protocol.ApplyIsSound` | src/hooks/mod.rs:363-371 | Applying an outcome before the slot is released keeps the invariant, staleness included |
| `Protocol.ReleaseIsSound` | src/hooks/mod.rs:372-391 | Freeing the slot or taking the rerun keeps the invariant |
| `Protocol.AttachIsSound` | src/hooks/mod.rs:490-540 | An attachment at any moment keeps the invariant |
| `Protocol.RequestIsSound` | src/hooks/mod.rs:206-262 | A request at any moment keeps the invariant |
| `Protocol.WakeIsSound` | src/hooks/mod.rs:579-593 | A wake returning at any later moment, successful or not, keeps the invariant |
| `Protocol.StepIsSound` | src/hooks/mod.rs:324-595 | Every enabled step of every kind keeps the invariant |
| `Protocol.EveryRunIsSound` | src/hooks/mod.rs:324-595 | Every schedule of steps reaches a state that satisfies the invariant |
| `ProtocolLaws.DeliveryInEveryRun` | src/hooks/mod.rs:408-593 | In every reachable state: at most once, waiting failures distinct and undelivered, conservation, cap, one signal per hook, ordered anchors, distinct pins |
| `ProtocolLaws.SlotsInEveryRun` | src/hooks/mod.rs:346-392 | In every reachable state: one owner per busy slot, reruns only behind an owner; every run executes the trigger of an arrival of its hook, in the order of arrival and none twice, and each owner that of its run; the newest arrival waits or was run last |
| `ProtocolLaws.NoStaleFailureInEveryRun` | src/hooks/mod.rs:363-428 | In every reachable state, what waits for a hook comes from a run later than each of its passing runs |
| `ProtocolLaws.RunnerLoopsEnd` | src/hooks/mod.rs:363-392 | Every schedule has at most four hook steps per trigger: with finitely many triggers the runner loops end |
| `ProtocolLaws.UnfinishedTaskCanStep` | src/hooks/mod.rs:363-392 | No task is ever stuck |
| `ProtocolLaws.QuietMeansServed` | src/hooks/mod.rs:346-392 | When all tasks are gone every slot is free and each hook last ran its newest trigger |
| `WakeLaws.WaitingWasAdmitted` | src/hooks/mod.rs:408-441 | Over any run, whatever waits at its end waited at its start or was admitted in it |
| `WakeLaws.WakeSendsAndCommits` | src/hooks/mod.rs:550-592 | In every run a wake is sent with the texts of exactly the pings that waited at its snapshot, in order, a blank line between two; when it returns it commits what waits then |
| `WakeLaws.WaitsExactlyWhen` | src/hooks/mod.rs:408-592 | Over any run: a ping waits at the end if and only if it waited before or a step queued it, and no step since - a pass or a replacement, an attachment, a wake - took it |
| `WakeLaws.UnsentExactlyWhen` | src/hooks/mod.rs:550-592 | In every run, a ping is committed without a place in the text that was sent if and only if it did not wait at the snapshot, a step in between queued it and no later step took it |
| `WakeLaws.WakeCommitsItsTextExactlyWhen` | src/hooks/mod.rs:550-592 | In every run, all that a wake commits has a place in the text it sent if and only if every ping queued in between and not taken by a later step already waited at the snapshot |
| `WakeLaws.QuietWakeCommitsItsText` | src/hooks/mod.rs:550-592 | In every run, with no outcome admitted meanwhile, all that a wake commits has a place in the text it sent |
| `WakeLaws.UnsentFailureIsLost` | src/hooks/mod.rs:429-592 | A failure committed without a place in the sent text was admitted meanwhile, and in no continuation does a failure with its id wait again |
| `WakeLaws.FailureAppliedDuringAWakeIsUnsent` | src/hooks/mod.rs:550-592 | Every failure admitted right after a snapshot is such a one |
| `Pings.FailurePingIsPingText` | src/hooks/ping.rs:60-75 | A failure ping's text is recognised as our own |
| `Pings.FailureIdIgnoresTheHookBoundary` | src/hooks/ping.rs:53-58 | Hook and message are digested without a separator: moving the boundary keeps the id |
| `Pings.FailureIdsAgreeExactlyWhen` | src/hooks/ping.rs:53-58 | Unless the digest collides, two failures share an id if and only if hook and message run together to one text |
| `Pings.SignalIdsAgreeExactlyWhen` | src/hooks/ping.rs:28-50 | Unless the digest collides, two signals share an id if and only if hook, message and images agree, an absent alternative text counting as an empty one |
| `PingLaws.FailureTextIs` | src/hooks/ping.rs:16-70 | A failure's text consists of exactly the opening with hook and id, the message, the fix if there is one, and the closing, one right behind the other |
| `PingLaws.PartsShowPing` | src/transform.rs:357-410 | The parts of a ping say its text, if it has one, and then show each of its images behind its alternative text, in order, and nothing else |
| `PingLaws.AdditionShowsPing` | src/transform.rs:357-465 | What a ping is inserted as shows it on every wire: parts of a message, or one user item whose content does |
| `DeliveryLaws.DeliveryShowsTheOutbox` | src/hooks/mod.rs:490-540 | A delivery that succeeds returns a body that shows every waiting ping, text and images, in order at the final item - in front of it, behind a tool output, inside an Anthropic message behind its tool results - and their ids |
| `DeliveryLaws.DeliveredExactlyWhen` | src/hooks/mod.rs:490-540 | What waits is delivered if and only if the body parses to a conversation that is not empty and, on Anthropic, ends in a user message with a string or a list as its content |
| `Injection.WithItemsReads` | src/transform.rs:310-325 | Rewriting the conversation gives exactly those items and keeps every other key |
| `Injection.CollectAdditions` | src/transform.rs:339-346 | The loop collects the additions of the pings anchored at one item, in batch order |
| `Injection.Rebuild` | src/transform.rs:422-440 | The rebuilding loop puts each item's pings before it, or behind it when it is a tool output |
| `Injection.InsertAfterToolOutputs` | src/transform.rs:412-440 | None exactly when some anchor is past the end; otherwise the woven conversation |
| `Injection.AllAnchorsAreUsers` | src/transform.rs:327-333 | True exactly when every anchor is a user message inside the conversation |
| `Injection.SpliceMessage` | src/transform.rs:334-353 | A message takes blocks when its content is a string or a list; they go behind leading tool results |
| `Injection.InjectAnthropic` | src/transform.rs:326-355 | A batch with one bad anchor rewrites nothing; an accepted one gives the woven messages |
| `Injection.InjectPings` | src/transform.rs:310-325 | On every wire the result is `Inject`: nothing, the same body for no pings, or the woven body |
| `InjectionLaws.ItemInjectionIsErasable` | src/transform.rs:378-440 | On Responses and Chat: erasing the inserted items gives the client's conversation, erasing the one-shot ones gives the durable injection, no other key changes |
| `InjectionLaws.MessageInjectionIsErasable` | src/transform.rs:326-355 | On Anthropic: erasing the inserted blocks gives each message back up to the one-block form of a string, and every tool result keeps its index |
| `InjectionLaws.SplicedResults` | src/transform.rs:347-353 | Splicing keeps every tool result at its index |
| `InjectionLaws.PingsSplitOutputsExactlyWhen` | src/transform.rs:422-440 | A ping precedes a tool output if and only if some ping is anchored at an output that another output follows; a batch at the final item never does |
| `InjectionLaws.CanonicalIsInjected` | src/transform.rs:326-440 | The canonical conversation of a set of pins is what injecting them returns, up to the one-block form |
| `InjectionLaws.CanonicalPrefix` | src/transform.rs:326-440 | A longer conversation with more pins past the old ones extends the shorter one's injection |
| `PrefixChain.ReturnedBodyShowsItsPins` | src/hooks/mod.rs:490-518 | The returned body, one-shot pieces erased, is the canonical conversation of the pins on record |
| `PrefixChain.AttachmentExtends` | src/hooks/mod.rs:497-518 | When the conversation strictly extends the last, all old pins still fit and the new view extends the old |
| `PrefixChain.ShownIsErased` | src/hooks/mod.rs:506-517 | Erasing the one-shot places of a returned body's own items gives what its session put on record |
| `PrefixChain.SteadyView` | src/hooks/mod.rs:490-518 | The body of one steady attachment holds the client's items, durable pings and one-shot ones each at its place, and erased it is the canonical conversation of the pins on record |
| `PrefixChain.SteadyRunsChain` | src/hooks/mod.rs:490-518 | Along a steady run, with hooks, wakes and requests in between, the returned bodies, erased, form a chain of prefixes |
| `PrefixChain.ReturnedBodiesAreShown` | src/hooks/mod.rs:490-518 | Every body returned along a steady run holds exactly the client's items and the batch's pings, each at its place |
| `PrefixChain.ReturnedBodiesExtendEachOther` | src/hooks/mod.rs:490-518 | From a fresh session, the items of each returned body, one-shot places erased, are a prefix of those of every later one |
| `PrefixChain.AnOldPinComesToSplit` | src/transform.rs:422-440 | A run of two attachments after which a ping stands between two tool outputs |
| `Pipeline.SteadyClientsExist` | src/relay/pipeline.rs:140-206 | On every wire, under any rules and for every growing conversation whose prefix they keep, a fresh session has a steady client's run that hands back two bodies |
| `Pipeline.ARuleRewritesAlongARun` | src/transform.rs:219-294 | Such a run on Anthropic in which a strip rule changes what the client sends |
| `Pipeline.PreparedBody` | src/transform.rs:70-101 | A rewritten body carries the prepared conversation, a bare Responses string unchanged |
| `Pipeline.PreparedExtendsExactly` | src/transform.rs:70-101 | A prepared conversation extends the prepared beginning if and only if the prefix condition holds |
| `Pipeline.PreparedStillFits` | src/transform.rs:219-294 | A message can carry pings if and only if it can once it is rewritten |
| `Pipeline.RelayedIsSteady` | src/relay/pipeline.rs:140-206 | A steady client's run, rewritten, is a steady run of attachments |
| `Pipeline.SteadyClientsAreRelayed` | src/relay/pipeline.rs:140-206 | From a fresh session, what a steady client sends reaches the session as a steady run |
| `Pipeline.RelayedBodiesExtendEachOther` | src/relay/pipeline.rs:140-206 | From the client's own conversations, rewriting and pinning together return bodies that extend one another |
| `Extract.GatherParts` | src/hooks/extract.rs:59-86 | The loop over parts gathers their non-ping texts, joined by line breaks, and notices a tool result |
| `Extract.ExtractLast` | src/hooks/extract.rs:59-144 | Each wire's extraction computes the prompt and the tool-result flag of an item |
| `Extract.FailurePinsAreFailurePings` | src/hooks/ping.rs:16-27 | A pinned failure ping has a ping text and no attachments |
| `Extract.WovenMessageExtracts` | src/transform.rs:334-353 | A spliced Anthropic message extracts exactly as the original one |
| `Extract.PingsAreNotPrompts` | src/hooks/extract.rs:37-144 | On every wire, for every anchors the injector accepts, injecting failure pings leaves the last prompt as it was |
| `ExtractLaws.PingTextExactly` | src/hooks/ping.rs:73-75 | A text is one of our own if and only if it opens as one, white space aside |
| `ExtractLaws.ItemIsRead` | src/hooks/extract.rs:59-144 | On every wire: the prompt of an item is there if and only if some text of its content is neither empty nor our own, and it consists of exactly those texts, a line break apart; the tool-result flag holds if and only if the item is or holds one |
| `ExtractLaws.LastItemIsRead` | src/hooks/extract.rs:20-47 | So reads the last item of a body, and the conversation length is the number of its items |
| `ExtractLaws.RequestFires` | src/hooks/mod.rs:206-262 | What a request fires, from its document: `SessionLaws.SeenFires` for the prompt, flag and length the document holds |
| `RewriteLaws.TrimmedTextIsCut` | src/transform.rs:145-157 | A text is trimmed if and only if it is over the limit; it is then head, marker, tail, and the marker's number read back counts exactly the missing characters |
| `RewriteLaws.DecimalReadsBack` | src/transform.rs:156-156 | The decimal number in the marker reads back as the number of removed characters |
| `Rewrite.RewriteWhere` | src/transform.rs:161-175 | The in-place loop rewrites exactly the values it is meant for and reports whether one changed |
| `Rewrite.RetainStripped` | src/transform.rs:226-245 | `retain_mut` keeps the blocks that still hold text and reports whether a text changed |
| `Rewrite.TrimOneItem` | src/transform.rs:177-215 | One item's trimming and its report, on every wire |
| `Rewrite.StripOneItem` | src/transform.rs:219-294 | One item's stripping and its report, on every wire |
| `Rewrite.ApplyPasses` | src/transform.rs:70-101 | The passes over the tree, one after the other, give the item-by-item composition and the names of those that changed something |
| `RewriteLaws.OnlyToolOutputsAndUserTextChange` | src/transform.rs:161-294 | Whatever the configuration, an item keeps every key but one, and in it every block but tool results and the item's own text, unchanged and in order; other items are untouched |
| `RewriteLaws.AppliedRespects` | src/transform.rs:64-101 | The same for the whole body: other keys kept, no item added or lost, unparseable bodies returned as they are |
| `RewriteLaws.QuietStrips` | src/transform.rs:226-245 | Strip rules that report nothing do nothing but drop text blocks that were empty |
| `RewriteLaws.QuietTree` | src/transform.rs:70-101 | When no pass reports a change, the tree is the original if and only if no strip rule met an empty text block |
| `RewriteLaws.ChangedGrows` | src/transform.rs:70-101 | What a conversation changes, a longer one changes too |
| `RewriteLaws.LongerConversationsExtend` | src/transform.rs:64-101 | The body sent for a longer conversation extends the one sent for its beginning, if and only if not: the beginning was unchanged, the longer one is not, and a strip rule meets an empty block in the beginning |
| `RewriteLaws.AnEmptyBlockBreaksThePrefix` | src/transform.rs:229-243 | A concrete conversation for which the prefix breaks |
| `RewriteTexts.ItemIsTrimmed` | src/transform.rs:129-215 | On every wire, trimming an item cuts exactly the texts of its tool outputs, wherever they stand |
| `RewriteTexts.ItemIsStripped` | src/transform.rs:219-294 | On every wire, stripping an item rewrites exactly the user's texts; those with nothing left go, a bare string stays |
| `RewriteTexts.AppliedTexts` | src/transform.rs:64-101 | `apply`: each text of a tool output comes out as it was if it is within the limit, and cut otherwise; the user's texts come out stripped by every rule in turn; unless nothing is reported, and then the body is the same and no text was over the limit |
| `RewriteTexts.AppliedReports` | src/transform.rs:64-127 | `apply` reports trimming if and only if some tool output text is over the limit, and each rule if and only if it compiles and changes some user text as the rules before it left it, in order |
| `RewriteTexts.TrimIsReportedExactlyWhen` | src/transform.rs:129-215 | Trimming reports an item if and only if one of its tool output texts is over the limit, and whenever it alters it |
| `RewriteTexts.TrimAltersExactlyWhen` | src/transform.rs:129-215 | It alters an item if and only if such a text is not its own cut |
| `RewriteTexts.AMarkerIsItsOwnCut` | src/transform.rs:145-157 | A text over every small limit that is its own cut: a marker that counts its own characters |
| `RewriteTexts.StripIsReportedExactlyWhen` | src/transform.rs:219-294 | A strip rule reports an item if and only if it changes one of its user texts |
| `RewriteTexts.StripAltersExactlyWhen` | src/transform.rs:219-294 | It alters an item if and only if it reports it or drops a block that was empty all along |
| `Sse.SseSplitter.constructor` | src/usage/sse.rs:14-21 | A new splitter has read nothing |
| `Sse.SseSplitter.TakeField` | src/usage/sse.rs:56-69 | A field line updates exactly the pending event name or data |
| `Sse.SseSplitter.Dispatch` | src/usage/sse.rs:72-81 | A pending event with data is delivered once, and nothing stays pending |
| `Sse.SseSplitter.ProcessLine` | src/usage/sse.rs:52-70 | One more line: the events delivered are those its blank line closes |
| `Sse.SseSplitter.Drain` | src/usage/sse.rs:23-36 | The loop takes every complete line out of the buffer and leaves the rest |
| `Sse.SseSplitter.Feed` | src/usage/sse.rs:23-36 | For every chunking, the events so far are those of a whole-stream reading of the bytes so far |
| `Sse.SseSplitter.Flush` | src/usage/sse.rs:38-50 | At the end of the stream the unfinished line and event are completed: all events are those of the whole-stream reading |
| `Sse.LinesConcat` | src/usage/sse.rs:23-36 | Reading lines resumes exactly at the unfinished line, wherever the bytes were cut |
| `Sse.EventsGrow` | src/usage/sse.rs:23-50 | More bytes never take back or alter an event |
| `SseLaws.FieldForms` | src/usage/sse.rs:56-65 | A field line with a colon, a colon and a space, or neither: at most one space is taken off the value |
| `SseLaws.LinesAreRead` | src/usage/sse.rs:23-36 | Lines sent with LF or CRLF after any of them read back as those lines |
| `SseLaws.SentEventsAreRead` | src/usage/sse.rs:23-84 | Any list of events, each with or without a name and with its data split at its line breaks, sent with either line end after any line, is read back as exactly those events |
| `SseLaws.AnUnclosedEventIsReadAtTheEnd` | src/usage/sse.rs:38-50 | When the last blank line never comes, the last event is read at the end of the stream and not before |
| `SseLaws.NoiseIsIgnored` | src/usage/sse.rs:52-70 | A comment, or a line with another field, changes nothing wherever it stands |
| `Utf8.EncodeIsInjective` | src/rules.rs:156-183 | Different texts have different UTF-8 bytes |
| `Utf8.ADecoderExists` | src/usage/sse.rs:30-32 | There is a decoder that reads back every encoded text, as the laws about sent bytes ask |
| `Stream.ModeIsStable` | src/usage/common.rs:98-114 | Whether a response is JSON or a stream is decided by its first visible byte, for every chunking |
| `Stream.ModeExactly` | src/usage/common.rs:98-111 | Whitespace decides nothing; the first other byte makes a response a JSON body if it is `{` and a stream otherwise, whatever comes behind it |
| `Stream.StreamOrBody.Feed` | src/usage/common.rs:98-125 | After any chunks the sink is in the state a reader of all the bytes at once is in |
| `Stream.StreamOrBody.Route` | src/usage/common.rs:116-125 | JSON bytes are kept, stream bytes go to the splitter and their events to the sink in order |
| `Stream.StreamOrBody.Finish` | src/usage/common.rs:135-145 | The final state is that of the whole response, body or stream, unfinished event included |
| `Stream.BoundTail` | src/usage/common.rs:7-20 | The bounded buffer is its last `max` characters |
| `Stream.TextTracker.Push` | src/usage/common.rs:28-37 | The tail is always the last 4096 characters of everything pushed |
| `Usage.DoneIsIgnored` | src/usage/common.rs:150-156 | `[DONE]`, with any whitespace around it, says nothing on any wire |
| `Usage.ErrorTells` | src/usage/common.rs:50-55 | An error tells its message, or else its type, or else itself when it is a text; anything else is `provider error` |
| `Reports.LatestExactly` | src/usage/anthropic.rs:26-47 | The latest saying of a stream is that of the event behind which no other says anything |
| `Reports.NothingSaid` | src/usage/anthropic.rs:26-47 | There is none if and only if no event says anything |
| `AnthropicRecord.AnthropicSink.ConsumeBlockFull` | src/usage/anthropic.rs:49-73 | A whole content block is counted, gathered and recorded as the block function says |
| `AnthropicRecord.AnthropicSink.TakeDelta` | src/usage/anthropic.rs:114-146 | A delta's text, thinking or tool input is counted, and only text is gathered |
| `AnthropicRecord.AnthropicSink.HandleEvent` | src/usage/anthropic.rs:77-166 | One event changes the sink exactly as the event function says; text and thinking stay counted |
| `AnthropicRecord.AnthropicSink.HandleBody` | src/usage/anthropic.rs:168-198 | A whole body does what the body function says; text and thinking stay counted |
| `Anthropic.EventKeepsCount` | src/usage/anthropic.rs:77-166 | Every event keeps visible text plus thinking within the character count |
| `Anthropic.BlocksKeepCount` | src/usage/anthropic.rs:49-73 | So does every list of whole blocks |
| `AnthropicLaws.StreamGathers` | src/usage/anthropic.rs:77-166 | After any events, text, thinking, tool calls and character count are exactly those of the pieces the events brought, each character counted once |
| `AnthropicLaws.BlocksGather` | src/usage/anthropic.rs:49-73 | The same for the whole blocks of a body |
| `AnthropicLaws.StreamReports` | src/usage/anthropic.rs:26-166 | Stop reason, exact reasoning, four token counts, model, id and error are each what the last event to report it said |
| `AnthropicLaws.SummaryOfStream` | src/usage/anthropic.rs:77-236 | The summary of any stream, from its events: the turn has ended if and only if the last stop reason is `end_turn` or `stop_sequence`; text and calls are those streamed; reasoning is the last exact count or an estimate from the thinking; every count and name is the last reported |
| `AnthropicLaws.SummaryOfBody` | src/usage/anthropic.rs:168-236 | The summary of a whole message, from its document; an error document says nothing but its error |
| `AnthropicLaws.StreamMatchesMessage` | src/usage/anthropic.rs:49-232 | However a message is cut into deltas, its summary's text, calls, reasoning and end of turn are those of the whole message; the character counts agree if and only if the tool inputs are equally long |
| `ResponsesRecord.ResponsesSink.RecordCall` | src/usage/openai_responses.rs:65-85 | A call is appended, or completes the one with its id |
| `ResponsesRecord.ResponsesSink.ConsumeOutputItem` | src/usage/openai_responses.rs:65-99 | One output item is consumed as the item function says |
| `ResponsesRecord.ResponsesSink.HandleEvent` | src/usage/openai_responses.rs:124-161 | One event changes the sink exactly as the event function says; the text stays what is counted, and calls keep distinct ids |
| `ResponsesRecord.ResponsesSink.HandleBody` | src/usage/openai_responses.rs:163-185 | A whole body does what the body function says; the text stays what is counted, and calls keep distinct ids |
| `Responses.EventKeepsCount` | src/usage/openai_responses.rs:124-161 | Every event keeps the character count equal to the text's length |
| `Responses.CallIdsAreDistinct` | src/usage/openai_responses.rs:65-99 | After any events, no two tool calls share a non-empty id |
| `Responses.TwiceIsOnceExactlyWhenIdentified` | src/usage/openai_responses.rs:65-120 | Consuming a list of calls twice equals once if and only if each call has an id |
| `Responses.ReplayMatchesBody` | src/usage/openai_responses.rs:101-222 | Streaming every item and then the completed response reports what the body reports, text aside; tool calls agree if and only if each has an id |
| `ResponsesLaws.CallsAreMade` | src/usage/openai_responses.rs:10-85 | The calls of a list of items are those its calling items make, in order and no others, each under its `call_id` or else its `id` |
| `ResponsesLaws.HeardAreReported` | src/usage/openai_responses.rs:65-85 | Of calls heard any number of times: one for each id, in the order in which the ids were first heard, with the first name given under it, and every call without an id as it is |
| `ResponsesLaws.ErrorIsTold` | src/usage/openai_responses.rs:101-161 | The error of a stream is the last one told by a failure or a finished response; untold, a failure is reported as such |
| `ResponsesLaws.SummaryOfStream` | src/usage/openai_responses.rs:124-226 | The summary of any stream, from its events: the turn has ended if and only if the last status is `completed` and no item brought is a call; text is the deltas; calls, counts, names, stop reason and error likewise |
| `ResponsesLaws.SummaryOfBody` | src/usage/openai_responses.rs:163-226 | The summary of a whole response, from its document |
| `ChatRecord.ChatSink.ConsumeToolCallDelta` | src/usage/openai_chat.rs:52-61 | A fragment fills in the builder at its index |
| `ChatRecord.ChatSink.HandleEvent` | src/usage/openai_chat.rs:71-109 | One event changes the sink exactly as the event function says; text and reasoning stay what is counted |
| `ChatRecord.ChatSink.HandleBody` | src/usage/openai_chat.rs:111-148 | A whole body does what the body function says; text and reasoning stay what is counted |
| `Chat.ValueKeepsCount` | src/usage/openai_chat.rs:71-148 | Every value keeps the character count equal to text plus reasoning |
| `Chat.FragmentsAmountTo` | src/usage/openai_chat.rs:52-61 | After any fragments, an index holds the last id and the last name supplied for it |
| `Chat.StreamHoldsWhatWasSupplied` | src/usage/openai_chat.rs:71-109 | A stream's text, reasoning count, builders and finish reason are what its deltas add up to |
| `Chat.FragmentationDoesNotMatter` | src/usage/openai_chat.rs:52-192 | However a message is cut into deltas, the summary's calls, text, reasoning and end of turn are those of the whole message |
| `Chat.EventsAreTheirValues` | src/usage/openai_chat.rs:71-76 | Events that do not parse, `[DONE]` among them, count for nothing |
| `ChatLaws.CallsAreReported` | src/usage/openai_chat.rs:52-61 | The reported calls are those of the indices that were given an id or a name, in index order, each with the last of both |
| `ChatLaws.SummaryOfStream` | src/usage/openai_chat.rs:71-196 | The summary of any stream, from its events: the turn has ended if and only if the last finish reason is `stop`; text is all content; calls are what the fragments amount to; counts, names and error are the last reported |
| `ChatLaws.SummaryOfBody` | src/usage/openai_chat.rs:111-196 | The summary of a whole message, from its document; an error document says nothing but its error |
| `TurnLaws.AnthropicEndsTheTurn` | src/hooks/mod.rs:300-320 | After any Anthropic stream, the end of the turn fires if and only if the last stop reason is one of two |
| `TurnLaws.ResponsesEndTheTurn` | src/hooks/mod.rs:300-320 | After any Responses stream, if and only if the last status is `completed` and no item is a call |
| `TurnLaws.ChatEndsTheTurn` | src/hooks/mod.rs:300-320 | After any Chat stream, if and only if the last finish reason is `stop` |
| `Forward.VerdictExactly` | src/rules.rs:134-152 | The limit comes before the patterns; of those that match the first is named; nothing is named if and only if the count is within the limit and no pattern matches |
| `Forward.StreamGuard.Check` | src/rules.rs:134-152 | A guard names a rule at most once, and the first that applies |
| `Forward.Forwarder.Observe` | src/relay/pipeline.rs:401-426 | A chunk is read and judged; a panic ends the monitoring, is reported, and costs nothing else |
| `Forward.Forwarder.OnData` | src/relay/pipeline.rs:389-446 | One chunk is forwarded whole, or withheld for the tail, or finds the client gone |
| `Forward.ForwardResponse` | src/relay/pipeline.rs:373-447 | The client gets whole chunks, unchanged and in order, up to the first frame at which a rule fires on all that was read, the client is gone or the read fails; then the tail exactly if a rule fired on an identity-encoded stream |
| `ForwardLaws.PassedOverIsWithinLimit` | src/rules.rs:134-143 | While the parser has not panicked, what was read up to a forwarded chunk is within the limit |
| `ForwardLaws.ForwardedStaysWithinLimit` | src/relay/pipeline.rs:401-447 | A fresh parser given exactly the forwarded chunks counts no more than the limit |
| `ForwardLaws.TextIsCounted` | src/usage/anthropic.rs:122-144 | On every wire, after any bytes, the visible text is no longer than the count that is limited |
| `ForwardLaws.PatternsReadTheEnd` | src/usage/common.rs:7-37 | On every wire the patterns are matched against the last 4096 characters of the visible text, or all of it |
| `ForwardLaws.RawsAreTheChunks` | src/relay/pipeline.rs:389-446 | What is sent of the frames passed over is their raw bytes, in order, whatever the monitor reads in their place |
| `ForwardLaws.CutResponseIsReadExactlyWhen` | src/relay/pipeline.rs:427-447 | What a client reads from all it was sent of a cut response is the forwarded events and then exactly the error event, if and only if the tail is read as intended behind the forwarded chunks |
| `LimitLaws.RunningGrows` | src/usage/common.rs:98-125 | The running count never falls as bytes arrive, for any sink whose events never lower it |
| `LimitLaws.ResponsesGrows` | src/usage/openai_responses.rs:124-161 | On the Responses wire no event lowers the count |
| `LimitLaws.CutExactlyWhen` | src/rules.rs:134-152 | Of an undisturbed response: it is cut if and only if it is read as events whose running count passes the limit, or a pattern matches the running text after some chunk |
| `LimitLaws.CutByLengthExactlyWhen` | src/rules.rs:138-143 | With no patterns: cut if and only if read as events whose running count passes the limit |
| `LimitLaws.EachWireIsCutExactlyWhen` | src/rules.rs:134-152 | For the three wires' own parsers, from an empty response and under any rules, that is exactly when a response is cut |
| `LimitLaws.JsonBodyIsCutExactlyWhen` | src/usage/common.rs:116-125 | A response that is one JSON body is cut if and only if the rules fire on an empty response |
| `LimitLaws.EachWireCutsJsonExactlyWhen` | src/usage/common.rs:116-125 | On the three wires a JSON body is cut if and only if a pattern matches the empty text |
| `LimitLaws.JsonBodyIsNeverCutByLength` | src/usage/common.rs:116-125 | With a limit alone it is never cut |
| `LimitLaws.ALongJsonBodyIsForwardedWhole` | src/usage/common.rs:116-145 | A body for every limit: forwarded whole, and counted past the limit once the response is over |
| `LimitLaws.EndAddsThePendingEvent` | src/usage/sse.rs:38-58 | The end of a stream adds at most one event: that of the lines since the last blank one, the unfinished line included |
| `LimitLaws.FinalCountIsWithinExactlyWhen` | src/usage/common.rs:135-145 | Of an undisturbed response that is no JSON body and was forwarded whole: its final count is within the limit if and only if no event is pending at its end, or that one event leaves the running count within it |
| `LimitLaws.AnUnfinishedEventIsForwardedWhole` | src/usage/common.rs:135-145 | For any data, an event whose only line is never ended is forwarded whole under a limit, and counted at the end |
| `LimitLaws.ALongPendingEventIsForwardedWhole` | src/usage/common.rs:135-145 | A stream for every limit: read as events, forwarded whole, and counted past the limit once the response is over |
| `CutTail.LinesReadBack` | src/usage/sse.rs:23-36 | Encoded lines read back as those lines |
| `CutTail.ErrorTextIsOneLine` | src/rules.rs:156-183 | For every rule name the error document is one line |
| `CutTail.ErrorTextSpells` | src/rules.rs:156-183 | For every rule name the text that is sent stands for the error document, by the JSON grammar |
| `Printing.QuoteSpells` | src/rules.rs:156-183 | Every string is read back from its quoted and escaped form |
| `Printing.PrintSpells` | src/rules.rs:156-183 | The compact text of any document of strings, arrays and objects stands for that document |
| `CutTail.TailIsReadExactlyWhen` | src/rules.rs:156-183 | Wherever the forwarded bytes end, parsing them with the tail gives the forwarded events and then exactly the error event (and `[DONE]`), if and only if the line its first line completes leaves pending what that first line alone would have |
| `CutTail.TailIsReadExactlyWhenNothingIsPending` | src/rules.rs:156-183 | On a line boundary: if and only if no data is pending and, on a wire whose tail names no event, no event name is |
| `CutTail.TailAloneIsRead` | src/rules.rs:156-183 | On its own a tail is read as one event of its wire's error kind, on Chat one without a kind and `[DONE]` |
| `CutTail.AStrayByteHidesTheTail` | src/rules.rs:156-183 | After a single stray byte no field is pending and on no wire is the tail read as intended |
| `CutTail.ACommentLetsTheTailThrough` | src/rules.rs:160-166 | After an event name and a comment just begun, the Anthropic tail is read as intended |
| `CutTail.ErrorEventIsReported` | src/rules.rs:156-183 | Each wire's parser reports the rule by its name from that event, in any state |
| `Install.InstallState.TrackFile` | src/install/state.rs:43-59 | A file is recorded once, with what it held then or that it was absent |
| `Install.InstallState.RestoreFiles` | src/install/state.rs:63-82 | Every recorded file is rewritten or removed; one report line each, in order |
| `Install.InstallWith` | src/install/mod.rs:52-106 | A completed install tracks each file before writing it and saves the record |
| `Install.UninstallWith` | src/install/mod.rs:108-123 | An uninstall restores what the record says and removes the record |
| `Install.InstallRecords` | src/install/state.rs:43-59 | An install records what each file held before it, unless an earlier install did |
| `Install.FileHoldsWhatWasRendered` | src/install/mod.rs:52-106 | After an install a file holds what the last write to it rendered from what it then found, and the launch agent is on record as loaded |
| `Install.UninstallRestoresFirstSeen` | src/install/mod.rs:52-123 | After any run of installs, uninstalls and foreign edits, an uninstall gives each touched file what it held before the first install that touched it, and leaves the others alone |
| `Install.InstallRoundTrip` | src/install/mod.rs:52-123 | Any number of installs, whatever they write, and one uninstall leave the machine as it was |
| `ShellWrapper.SecondInstallReplacesFirstExactlyWhen` | src/install/shell_wrapper.rs:53-68 | Writing two blocks in turn is writing the second one, if and only if the file had no marker or a start marker before the first end marker |
| `ShellWrapper.StaysWellMarked` | src/install/shell_wrapper.rs:53-68 | A well-marked file stays one after a write |
| `ShellWrapper.BlockGoesBehind` | src/install/shell_wrapper.rs:61-67 | Without both markers the file stays as it was in front of the block, with one line break between them exactly when its last line is not ended |
| `ShellWrapper.BlockIsReplaced` | src/install/shell_wrapper.rs:54-60 | A block behind whole lines without markers is replaced, and nothing around it changes |
| `ShellWrapper.OwnMarkers` | src/install/shell_wrapper.rs:5-6 | The installer's own markers and block have the form the laws ask for |
| `ShellWrapper.RerunIsIdempotentExactlyWhen` | src/install/shell_wrapper.rs:40-68 | With the installer's own block a rerun changes nothing, if and only if the file is well-marked |
| `InstallLaws.ManyWritesAreOneExactlyWhen` | src/install/shell_wrapper.rs:53-68 | However often a block is written, more than once, the file is as after the first time if and only if it was well-marked |
| `InstallLaws.ManyInstallsAreOneExactlyWhen` | src/install/mod.rs:52-106 | Any number of installs, more than one, leave in the start-up file what the first one left, if and only if it was well-marked, whatever else they write |
| `Overlay.MoveMerge` | src/launch/mod.rs:180-200 | The recursion, its early end and its setting aside are `Move`; it terminates |
| `Overlay.BuildHomeOverlay` | src/launch/mod.rs:138-149 | One link for each entry but the skipped one; it fails exactly when a name is taken |
| `Overlay.RealHome.Reconcile` | src/launch/mod.rs:156-178 | What the overlay holds of its own, generated file aside, is moved in listing order until a failure; the moved names are reported |
| `Overlay.OwnEntriesGoBack` | src/launch/mod.rs:156-178 | An entry goes back if and only if the overlay holds it as its own, links and the generated file apart |
| `Overlay.MergeConservesExactly` | src/launch/mod.rs:154-200 | Reconciling succeeds, keeps every file of the real home and brings every moved file to its destination, if and only if no entry clashes with the directory as the entries before it leave it |
| `Overlay.ClashLoses` | src/launch/mod.rs:193-198 | A clash that does not end in an error leaves another content where a file was, or where a moved file belongs |
| `Overlay.TidyClashesAreInPlace` | src/launch/mod.rs:180-200 | When no made name ends with the suffix, the clashes can be read off the two trees as they stand, in any listing order |
| `Overlay.SuffixFreeNeverClashes` | src/launch/mod.rs:180-200 | When no name of the real home and no made name ends with the suffix, at any level, nothing clashes |
| `Overlay.MergeKeepsExactly` | src/launch/mod.rs:180-200 | When no made name ends with the suffix, a clash always costs a file of the real home itself: it keeps all of them, and reconciling succeeds, if and only if there is none |
| `Overlay.MovedFilesArrive` | src/launch/mod.rs:180-200 | Without clashes every moved file is at its destination |
| `Overlay.DestinationIsNear` | src/launch/mod.rs:193-198 | A destination is the file's own path, or differs in one component with the conflict suffix |
| `Overlay.NothingElseAppears` | src/launch/mod.rs:180-200 | Without clashes every file found afterwards was there before or was moved there |
| `Overlay.RunConserves` | src/launch/mod.rs:135-200 | Build, run and reconcile, whatever the harness made and whatever it wrote through the links: conserved if and only if there is no clash, and then nothing else appears |
| `Overlay.ATakenConflictNameLosesAFile` | src/launch/mod.rs:193-198 | A concrete clash in which a file of the real home is lost |

## Left out

- HTTP serving, the upstream client, TLS, decompression, telemetry and file permissions: library behaviour; a compressed chunk's decoded form is arbitrary in `Forward`.
- Process spawning, tmux, the unix-socket and harness-specific wake adapters, the MCP channel server, the demo and the command line: plumbing around the modelled parts.
- Route lookup, session keys, loopback checks, channel trust, working-directory detection and the configuration overlays of single harnesses: one-branch logic or access to the environment.
- Sessions of other keys: the model follows one session; the sections of another session do not touch its record. The map from keys to sessions is not modelled.
- The triggers `record_request` and `record_response` fire are not tied to hook configurations (`src/hooks/mod.rs:324-340`): in `Protocol` any hook may be triggered at any time, which covers every configuration.
- Time: idleness, wake targets and hook timeouts are choices of the schedule. A hook command's own run is the gap between two steps, with any outcome.
- Whether a re-pinned body reaches the provider: `modified` at `src/relay/pipeline.rs:207` is false when no ping was newly delivered and no transform changed anything, so the raw request is sent. Prefix stability is stated for the body `attach_pings` returns, from the client's conversation on.
- Request rules and the rejection of a request (`src/rules.rs:63-117`): one branch each.
- Image validation (`src/transform.rs:24-54`): attachments are arbitrary here.
- The trait `EventSink` (`src/usage/common.rs:60-77`) is a record of functions, so `StreamOrBody` works on a sink's value; each wire's mutable sink is a class proved equal to those functions.
- Installs that stop part-way: the record is only saved at `src/install/mod.rs:104`, so files written by a stopped install are not tracked. Reads and writes that fail, and file permissions, are not modelled either.
- The contents an install writes (`src/install/claude_settings.rs`, `src/install/codex_config.rs`, `src/install/claude_channel.rs`) are arbitrary functions of what each file held.
- Symbolic links below the top level of the overlay, links inside the real home, names that are not UTF-8, and renames across file systems: `Overlay` has regular files and directories, and links only at the top of the overlay.
- `Overlay.MoveMerge` works on directory values rather than on a mutable file tree; only the real home itself is an object that is updated, and emptied overlay directories are not modelled.
- PrefixChain.ReturnedBodiesExtendEachOther: speaks of runs without compaction in which, on Anthropic, pings only wait when the final message can carry them; a final message that cannot clears the pins (`src/hooks/mod.rs:523`).
- Pipeline.RelayedBodiesExtendEachOther: asks that rewriting keeps the prefix at each step (`PrefixIsKept`, which `PreparedExtendsExactly` shows to be exactly needed), besides a run without compaction.
- Chat.FragmentationDoesNotMatter: asks that the whole message carries no `error` field, which would be all it reports; events that carry one are passed over.
- Extract.PingsAreNotPrompts: speaks of failure pings; a signal's text is arbitrary and can be read as a prompt.
