# llamaswap: a verified model of its stream, history and process logic

llamaswap is a gateway that starts and stops local model servers, proxies requests to them and
repairs what they answer. This project models the parts of it that keep state over many steps and
proves what every input, every way of cutting a stream into chunks and every interleaving keeps.

| file | models |
|---|---|
| `Text.dfy` | searching, splitting, stripping; holding back half a tag; splitting a text that arrives in parts |
| `Splitter.dfy`, `SplitterTheorems.dfy`, `Streaming.dfy` | the exl3 server's streaming splitter: reasoning, content, tool calls |
| `Calls.dfy` | the shape of a tool call |
| `Buffered.dfy` | the exl3 server's answer to a request that is not streamed, and its agreement with the stream |
| `ReadBack.dfy` | a generation written from reasoning, content and tool blocks, and what both paths read of it |
| `Trim.dfy`, `TrimTheorems.dfy`, `ContextRetry.dfy` | cutting a chat history at turns, and the retry loop around it |
| `Reconcile.dfy`, `ReconcileResponse.dfy`, `StreamReconcile.dfy` | recovery of refused tool calls, on a response and on a stream |
| `TokenMeter.dfy`, `TokenTotals.dfy` | token counts of one stream, and token totals across restarts |
| `Lifecycle.dfy`, `LifecycleTheorems.dfy` | the managers of backend processes under every interleaving |
| `Guard.dfy` | which servers the routes let share the GPU, request after request |
| `Multipart.dfy`, `MultipartTheorems.dfy`, `MultipartRoundTrip.dfy` | the form a client writes and the proxy reads and extends |
| `Ollama.dfy`, `OllamaTheorems.dfy` | the adapter from server-sent events to Ollama records |
| `Jsonc.dfy` | removal of comments and trailing commas from a configuration file |

`dafny verify dfyconfig.toml` checks all of it.

The source's objects are classes here (`Streaming.Sse`, `Message`, `StreamReconciler`,
`StreamTokenMeter`, `TokenStore`, `Metrics`, `Gateway`, `Adapter`) and its loops are loops; every such method is
tied to a function of its inputs, and the lemmas are about those functions. What the source calls but
this model cannot see (JSON decoding, name similarity, tool payload parsing, upstream answers, the
clock, the disk) is a parameter: a function value of the right type, or a choice made by whoever runs
the step. A byte is modelled as a `char`.

Results that a reader of the source might not expect:

* A literal opening think tag in front of the text is dropped only if it arrives in one piece, and then
  another one behind it may be dropped too. What clients can see of one text, over all chunkings, is its
  meaning with any number of the leading tags dropped, and nothing else (`ViewsOf`); so the splitter is
  chunk-invariant exactly when thinking is off or no tag leads the text (`ChunkInvariantIff`).
* Streamed and buffered tool calls agree exactly when each closing tag has one opening tag of its own
  (`PayloadsAgreeIff`, `TwoOpens`); for any other text some payload parser tells them apart
  (`CallsAgreeIff`). The contents agree, whatever the tags, exactly where `SameContent` says: the buffered
  path must find a call, and nothing but whitespace may stand outside its blocks behind the first opening
  tag, except what the stream keeps when it finds no call itself (`ContentAgreesIff`, `OpenAlone`,
  `RestKept`).
* "Drops whole tool-call turns atomically" (`app/proxy.py:159`) fails when the last message of the
  leading system block carries tool calls that are answered behind it, and only then (`WholeTurnsIff`,
  `SplitTurnHappens`).
* The rules about who shares the GPU each need particular toggles, no more and no fewer (`RuleIff`), and
  `audio_vram_guard` can never act while `unload_audio_on_big_llm` is on (`NeverSubstituted`). The rules
  hold for requests handled one after another; interleaved, none of the toggles protects even image
  against chat (`GuardsAreNotAtomic`).
* `strip_jsonc` keeps a trailing comma when only comments or other trailing commas stand between it and
  its bracket, and only then (`TrailingLeftIff`, `CommentHidesComma`), although its description says
  that trailing commas are removed.
* With the token database broken the rendered install total misses exactly the rows that were not read
  before it broke (`RenderedIff`, `RenderedMisses`).
* The events of a manager count a ready server until its exit is noticed; they tell whether a live one is
  there exactly when no exit waits to be noticed (`EventsTellTheTruth`, `ExitGoesUnnoticed`).

## Model

| member | source | states |
|---|---|---|
| Text.SplitAppend | app/tool_reconcile.py:262-264 | splitting a stream at a separator chunk by chunk, keeping the remainder, is splitting the whole stream |
| Text.HoldSuffices | backend/exl3_server.py:602-611 | a reader that keeps only the longest suffix that could start the tag finds the next tag where a reader of everything finds it, and holds back the same suffix |
| Text.LStripNewlinesCuts | backend/exl3_server.py:617 | only line breaks are cut off in front of the visible text |
| Text.TrimBothCuts | app/proxy.py:675 | trimming cuts characters of the set and no others, and all of them at either end |
| Text.SplitPieces | app/tool_reconcile.py:262-264 | no separator is left in a piece |
| Streaming.Sse.HoldBack | backend/exl3_server.py:642-646 | the loop finds the longest suffix of the data that is a proper prefix of the tag |
| Streaming.Sse.FeedTools | backend/exl3_server.py:661-684 | the block loop leaves and emits what scanning buffer and chunk as one text gives |
| Streaming.Sse.FeedPlain | backend/exl3_server.py:638-654 | content before the first opening tag: emitted up to the held suffix, or up to the tag with the rest scanned for calls |
| Streaming.Sse.FeedContent | backend/exl3_server.py:626-654 | visible text, with the blank lines after the reasoning dropped wherever they surface |
| Streaming.Sse.FeedThink | backend/exl3_server.py:592-619 | reasoning up to the closing tag, then the rest of the chunk as visible text |
| Streaming.Sse.Feed | backend/exl3_server.py:621-624 | one chunk goes to the phase the splitter is in |
| Streaming.Sse.Finish | backend/exl3_server.py:701-718 | the end flushes what is held, an unfinished block only if no call went out, and then the finish reason |
| Streaming.Sse.Generate | backend/exl3_server.py:571-719 | a whole generation yields the deltas the specification gives for its chunks |
| Splitter.ScanAppend | backend/exl3_server.py:663-684 | scanning blocks in a text that arrives in two parts is scanning the first, then its rest with the second |
| Splitter.ThinkMove | backend/exl3_server.py:592-619 | one chunk of reasoning moves the state and the output to what the longer text means, unless the literal opening tag is being dropped |
| Splitter.ContentMove | backend/exl3_server.py:626-654 | the same for one chunk of visible text |
| Splitter.RunView | backend/exl3_server.py:686-692 | after any chunks, state and output are functions of their concatenation, if thinking is off or no opening tag leads it |
| Splitter.FlushCompletes | backend/exl3_server.py:701-718 | the final flush completes what was emitted to the meaning of the whole text |
| SplitterTheorems.StreamIsDeclared | backend/exl3_server.py:571-719 | for all chunks of a text that no literal opening tag leads, or without thinking: reasoning, content, tool calls and finish reason are those of the declared split of the text at the first closing think tag, the first opening tool tag and the successive blocks |
| SplitterTheorems.OneChunk | backend/exl3_server.py:595-600 | a generation in one chunk loses a literal opening think tag |
| SplitterTheorems.TwoChunks | backend/exl3_server.py:595-600 | cut inside that tag, the same generation keeps it |
| SplitterTheorems.TagMatters | backend/exl3_server.py:595-618 | the reasoning seen in the two cases differs by exactly the tag and what is in front of it, and nothing else differs |
| SplitterTheorems.ChunkInvariantIff | backend/exl3_server.py:571-719 | all chunkings of a text look the same to a client if and only if thinking is off or the left-stripped text does not start with the opening think tag |
| SplitterTheorems.EveryView | backend/exl3_server.py:592-600 | for all chunks of any text: what a client sees is the declared split of the text with some number of its leading opening tags dropped |
| SplitterTheorems.ViewsOf | backend/exl3_server.py:592-600 | the views of a text over all its chunkings are exactly those, each number from none to all of the leading tags included |
| SplitterTheorems.OutputOrdered | backend/exl3_server.py:686-718 | reasoning comes before content, content before tool calls, and the finish last, for all chunks |
| SplitterTheorems.HeldBackIsMinimal | backend/exl3_server.py:601-654 | for all chunks of any text, read without the leading tags that were dropped: while a tag is awaited, in open reasoning, in content without thinking and in content behind the reasoning, emitted text and carry make up the text, and the carry is the longest suffix that could become the tag |
| Buffered.PayloadsAgreeIff | backend/exl3_server.py:227-230 | the regular expression and the block loop find the same payloads if and only if each closing tag has one opening tag of its own |
| Buffered.TwoOpens | backend/exl3_server.py:227-230 | a block with two opening tags, for which the two find different payloads |
| Buffered.FewerFound | backend/exl3_server.py:544-552 | the buffered path never finds more blocks than the stream closes |
| Buffered.CallsAgreeIff | backend/exl3_server.py:544-552 | the calls agree for every payload parser if and only if the same condition holds |
| Buffered.ContentAgreesIff | backend/exl3_server.py:553-555 | for any text the two contents agree up to stripping if and only if there is no opening tag; or the regular expression finds a call and only whitespace stands outside its blocks behind the first opening tag; or it finds a call, the block loop none, and the text outside is what the loop leaves, with no whitespace in front of it that the loop's stripping would lose |
| Buffered.OpenAlone | backend/exl3_server.py:703-711 | an input for which the contents differ whatever the payload parser: an opening tag alone |
| Buffered.RestKept | backend/exl3_server.py:553-555 | an input for which they agree although text stands outside the block, because only the outer payload is a call |
| Buffered.StreamAgreesWithBuffer | backend/exl3_server.py:521-557 | for all chunks of any text: the same calls in order and the same finish reason if each closing tag has one opening tag of its own, the same content up to stripping exactly under the condition of `ContentAgreesIff`, and the same reasoning up to stripping if and only if thinking is off or the stream has dropped just the one leading tag the buffered path drops |
| ReadBack.ContentBehind | backend/exl3_server.py:535 | for any text with a closing think tag: what follows the tag is line breaks and then the visible text, which does not start with one |
| ReadBack.BlocksReadBack | backend/exl3_server.py:661-684 | blocks written one behind the other, with text between them and the last one unfinished or not: the block loop and the regular expression both find the stripped payloads, the loop keeps what is behind the last tag, and removal leaves the text between |
| ReadBack.AllParse | backend/exl3_server.py:544-552 | the calls are what the payloads parse to, in order |
| ReadBack.PassedOver | backend/exl3_server.py:676-683 | a payload that does not parse is passed over wherever it stands |
| ReadBack.StreamReadsBack | backend/exl3_server.py:571-719 | a generation written from reasoning, line breaks, content and blocks, none of which holds a tag of its own, and with no think tag in front, is seen in any chunks as that reasoning, that content with its indentation, and its calls counted from 0 with the finish reason; without a call the content goes on with what is left of the last block |
| ReadBack.BufferReadsBack | backend/exl3_server.py:521-557 | answered at once it has the same calls and finish reason, the stripped reasoning, and the content as it is without any call, or with the finished blocks cut out and stripped |
| Trim.TurnGroups | app/proxy.py:129-150 | the groups divide the messages into consecutive turns, each with its whole run of tool results |
| Trim.TurnsUnique | app/proxy.py:130-135 | there is only one such division |
| Trim.CallTurnIff | app/proxy.py:141-143 | which messages start a turn with tool results |
| Trim.EstimateBounds | app/proxy.py:101-116 | the estimate is at least a quarter of the characters, and at most one more for every string, key and other value |
| Trim.MessageTotal | app/proxy.py:119-126 | a message is estimated at 8 and its content, name and calls; nothing else counts |
| Trim.KeepPoint | app/proxy.py:195-201 | the loop drops the shortest run of turns that reaches what is needed, or all of them |
| Trim.DigitsDenote | app/proxy.py:207-209 | the digits in the marker denote the number of messages that went, without leading zeros |
| ContextRetry.TrimHistory | app/proxy.py:153-212 | trimming as the source runs it |
| ContextRetry.DropTurns | app/proxy.py:195-201 | the dropping loop as the source runs it |
| TrimTheorems.TrimCuts | app/proxy.py:167-212 | trimming gives up exactly when nothing is droppable or needed; otherwise the shortest sufficient prefix of droppable turns becomes one marker that names how many messages went |
| TrimTheorems.TrimDropsEnough | app/proxy.py:187-204 | unless no droppable turn is left, what is dropped covers both what the upstream counted over the limit and what the estimate says is over it; without the last turn dropped one of the two is not covered; nothing is dropped exactly if nothing can be or neither is over the limit |
| TrimTheorems.DroppableIff | app/proxy.py:173-179 | droppable are the turns behind the leading system block and in front of the last message, and no others |
| TrimTheorems.HeadIff | app/proxy.py:167-172 | the leading system block ends at the first message that is no system message, or at the last message |
| TrimTheorems.TrimFits | app/proxy.py:189-201 | either the kept originals are estimated at no more than context less margin, or every droppable turn is gone |
| TrimTheorems.TrimKeepsToolResults | app/proxy.py:132-134 | no trim of a history without orphaned tool results leaves a tool result without its call turn |
| TrimTheorems.WholeTurnsIff | app/proxy.py:158-161 | every turn is kept or dropped as a whole if and only if the leading system block does not end inside one |
| TrimTheorems.SplitTurnHappens | app/proxy.py:167-178 | a history whose trim drops the tool result and keeps the system message that called the tool |
| TrimTheorems.RoundsKeep | app/proxy.py:419-440 | over any number of rounds on any history: the leading system block stays in front, the last message stays last, survivors keep their order, the messages behind the block get fewer each round, and if no tool result was orphaned at the start none is |
| ContextRetry.ProxyJson | app/proxy.py:496-516 | for any upstream: at most four calls, each body following from its predecessor's refusal by a trim, and usage recorded once exactly when the last call gets a countable answer |
| ContextRetry.RetriedIff | app/proxy.py:215-252 | a refused request is sent again exactly if trimming is on, the refusal names its counts, some turn is droppable and a count or the estimate is over what the context leaves beside the margin; nothing but the messages changes |
| ContextRetry.MarginIs | app/proxy.py:237-241 | the margin is the first of the two requested answer lengths and the configured one that is given, and never less than 256 |
| ContextRetry.SentOnce | app/proxy.py:224-226 | with trimming off, or a body without messages, there is one call |
| ContextRetry.ProxyStream | app/proxy.py:419-444 | the same for a stream: at most four calls; the client is sent the last attempt's chunks, one error event if it was refused, or its chunks and an error event if it broke off; only an answer that ends is counted, by the meter's counts for its chunks |
| ContextRetry.Forward | app/proxy.py:432-439 | one answer: every non-empty chunk goes to the meter and to the client, and the meter is asked once, if the answer ends |
| ContextRetry.PassingKeeps | app/proxy.py:433-437 | what a client is sent of an answer is non-empty chunks that together are the answer's bytes |
| ContextRetry.SentAfterRounds | app/proxy.py:509-513 | the n-th body sent holds the original messages after the trims in between |
| ContextRetry.SentBodiesAreSound | app/proxy.py:496-516 | every body sent has all that the rounds keep, whatever the history and whatever the upstream answers |
| Reconcile.MatchIsUnambiguous | app/tool_reconcile.py:79-101 | a call is re-emitted only under a declared name that alone passes the strongest test that any passes |
| Reconcile.MatchIff | app/tool_reconcile.py:79-101 | a name means a declaration if and only if that alone has its normal form, or no declaration alone has and it alone is the end of the name or the reverse, or none of these exists and it alone is close; a name is unmatched if and only if it has no normal form or nothing fits |
| Reconcile.TestsAre | app/tool_reconcile.py:86-97 | the three tests on normal forms, the second by a prefix on either side |
| Reconcile.MergeArguments | app/tool_reconcile.py:171-193 | pairing with deletion from the list, as the source runs it |
| Reconcile.MergeIsFifo | app/tool_reconcile.py:171-193 | length, order and names are kept, and the k-th argument-less refusal of a name gets the k-th text block of that name, if there is one |
| Reconcile.NoBlockTwice | app/tool_reconcile.py:187-191 | two refusals of a name that both take a block take different ones, in order |
| ReconcileResponse.Message.ApplyReconcile | app/tool_reconcile.py:196-232 | recovered calls are appended behind the original ones, with one record per call considered; without declared tools nothing changes |
| ReconcileResponse.Message.Emit | app/tool_reconcile.py:210-231 | the loop over the calls, with the set of executed names it updates |
| ReconcileResponse.RecoverIsFirst | app/tool_reconcile.py:216-231 | a re-emitted call was not executed before and has the arguments of the first call that means its name |
| ReconcileResponse.RecoverIsComplete | app/tool_reconcile.py:216-231 | every name that some call means is executed in the end |
| ReconcileResponse.RecoverOnce | app/tool_reconcile.py:220-231 | no name is re-emitted twice |
| ReconcileResponse.RecoverDeclared | app/tool_reconcile.py:218-229 | every re-emitted name was declared |
| ReconcileResponse.RecoverInOrder | app/tool_reconcile.py:214-231 | re-emitted calls come in the order of the calls that mean them first |
| ReconcileResponse.ConsideredAre | app/tool_reconcile.py:204-209 | without a refusal the text blocks are considered, otherwise every refusal under its name |
| ReconcileResponse.RecordsAgree | app/tool_reconcile.py:214-231 | every call has a record, and the names recorded as reconciled are those re-emitted and some that were executed before |
| StreamReconcile.StreamReconciler.Route | app/tool_reconcile.py:279-320 | one line is passed or held, and everything stored stays a function of the lines seen |
| StreamReconcile.StreamReconciler.Feed | app/tool_reconcile.py:259-268 | one chunk keeps the invariant that stored state and emitted bytes depend on the bytes fed alone |
| StreamReconcile.StreamReconciler.Finish | app/tool_reconcile.py:270-277 | the whole output is the lines that end nothing, at most one synthesized event, and then the lines that do, a last line without newline included; so the event stands in front of the end mark |
| StreamReconcile.StreamReconciler.Relay | app/tool_reconcile.py:259-366 | the same for a stream cut in any way, whose output and records are a function of its bytes |
| StreamReconcile.EventInFront | app/tool_reconcile.py:351-366 | the output is two groups of the stream's lines, each in order: those that are no end mark, finish nothing and refuse nothing, and the others; one event stands between them exactly if some call is recovered, with the calls as recovered and the last event as its model |
| StreamReconcile.AllLinesAre | app/tool_reconcile.py:259-277 | the lines are the stream cut at every newline and nowhere else |
| StreamReconcile.NoRefusalMissed | app/tool_reconcile.py:326-332 | reading only the held lines finds every refusal |
| StreamReconcile.CallsAre | app/tool_reconcile.py:322-333 | the calls considered are all refused ones, with arguments from the text's blocks, or without a refusal the blocks |
| StreamReconcile.LinesSay | app/tool_reconcile.py:300-320 | text, refusals and the last event of two parts are those of the first and of the second together |
| StreamReconcile.LinesConserved | app/tool_reconcile.py:235-241 | every input line comes out exactly once |
| StreamReconcile.LinesInOrder | app/tool_reconcile.py:279-320 | passed and held lines keep their order |
| StreamReconcile.NextIndexAbove | app/tool_reconcile.py:305-311 | the first free index is above every index streamed on any line |
| StreamReconcile.IndicesConsecutive | app/tool_reconcile.py:337-349 | synthesized indices count up from the first free one |
| StreamReconcile.NoCollision | app/tool_reconcile.py:252-255 | no synthesized index equals one the backend streamed, on held and unterminated lines too |
| StreamReconcile.SynthesizedDeclared | app/tool_reconcile.py:337-348 | every synthesized call was declared |
| StreamReconcile.SynthesizedIff | app/tool_reconcile.py:337-349 | a stream synthesizes the calls that a response with given executed names would be given, if and only if no two of the calls mean one name and none means an executed one |
| TokenMeter.StreamTokenMeter.Feed | app/proxy.py:344-385 | the meter's state is a function of the complete lines of the bytes fed |
| TokenMeter.StreamTokenMeter.Finish | app/proxy.py:387-392 | what is recorded for a stream is a function of its bytes: the reported counts or the estimates |
| TokenMeter.ReportedCounts | app/proxy.py:360-366 | the last usage report with a positive count wins |
| TokenMeter.RecordedIs | app/proxy.py:387-392 | recorded are the prompt's and the answer's count, in this order, of the last line that reports a positive one, and without such a line the two estimates |
| TokenMeter.EstimateAdds | app/proxy.py:367-385 | every line's estimate counts once |
| TokenTotals.TokenStore.constructor | app/token_store.py:67-86 | opening reads the baseline from disk; a database that breaks leaves the rows read before and is never written |
| TokenTotals.TokenStore.Flush | app/token_store.py:100-118 | a flush adds every pending count to disk and clears them, or changes nothing |
| TokenTotals.TokenStore.Add | app/token_store.py:93-98 | a positive count becomes pending, and is flushed when the interval has passed |
| TokenTotals.Metrics.IncTokens | app/metrics.py:78-80 | a positive count goes to the session counter of its key and to no other |
| TokenTotals.Metrics.Combined | app/metrics.py:166-170 | the rendered totals are baseline and session added up key by key |
| TokenTotals.Start | app/main.py:304 | a new store and new counters make the accounts a restart |
| TokenTotals.RecordTokens | app/proxy.py:301-307 | counting in both objects is one step of the accounts |
| TokenTotals.FlushTokens | app/token_store.py:100-118 | a flush of the store is one step of the accounts |
| TokenTotals.TotalsConserved | app/token_store.py:67-118 | over any adds, flushes, failed flushes and restarts: disk, pending and lost counts sum to all that was counted, and with the database open the rendered total is disk plus pending |
| TokenTotals.RenderedIff | app/metrics.py:166-174 | the rendered install total is disk plus pending if and only if the database is open, has nothing for the key, or broke only after the key was read |
| TokenTotals.RenderedMisses | app/token_store.py:67-86 | a run after which a token is on disk and not in the rendered total |
| TokenTotals.RestartLoses | app/token_store.py:89-118 | a restart loses exactly the pending counts, and nothing after a successful flush |
| TokenTotals.DueIsKept | app/token_store.py:93-98 | a count that comes when a flush is due, and can be written, survives a restart straight behind it |
| TokenTotals.BaselineIs | app/token_store.py:67-78 | the baseline is what was on disk, as far as it was read |
| Lifecycle.Reload | app/registry.py:299-328 | a registry is accepted if and only if names are unique and a listen address repeats only inside one role |
| LifecycleTheorems.RunSafe | app/process_manager.py:208-320 | in every interleaving each manager has at most one live process, the one it knows, and loads only under its lock |
| LifecycleTheorems.AcceptedApart | app/registry.py:314-321 | in an accepted registry two models with one address have one role |
| LifecycleTheorems.SingleOccupancy | app/server_manager.py:213-333 | two live processes never have the same role, nor the same host and port |
| LifecycleTheorems.NeverLoadingWhenFree | app/server_manager.py:229-241 | at lock-free points no server is loading, so the branches that wait for another load are unreachable |
| LifecycleTheorems.EnsureServes | app/server_manager.py:226-245 | a request at a lock-free point leaves everything as it is if and only if the current server is ready and has the model's name, or for embeddings is ready and not known to have exited |
| LifecycleTheorems.RequestServed | app/process_manager.py:242-254 | any other request, whatever is interleaved: when that manager's lock is next free, the current server is none or a ready one with the configuration asked for |
| LifecycleTheorems.SwapHappens | app/process_manager.py:249-320 | if the old server stops, the launch succeeds and the new one answers, the new one is current, alive and ready, and the old one was gone before the launch |
| LifecycleTheorems.LaunchFails | app/process_manager.py:287-291 | a launch that fails leaves no server and frees the lock |
| LifecycleTheorems.ProbeFails | app/process_manager.py:303-311 | a server that never answers is stopped, and none is left |
| LifecycleTheorems.UnloadEnds | app/process_manager.py:256-266 | an unload ends without a server; an idle one concerns a ready server only |
| LifecycleTheorems.CrashIsReplaced | app/server_manager.py:342-350 | once a crash is noticed it is told of, and once the server is marked as failed no request is answered by it |
| LifecycleTheorems.RunTold | app/server_manager.py:324-331 | after any run every role's event balance says whether a ready server is there |
| LifecycleTheorems.EventsTellTheTruth | app/process_manager.py:232-236 | every unload event pairs with the load event of its model just before it in its role; loads less unloads and deaths is one exactly when a ready server is current whose exit is not known, and so says whether a live one is current if and only if no exit waits to be noticed |
| LifecycleTheorems.ExitGoesUnnoticed | app/server_manager.py:343-345 | a run after which the events still count a server that has exited |
| Guard.Gateway.EnsureModel | app/server_manager.py:226-252 | a ready model is kept, any other is stopped before the launch is tried |
| Guard.Gateway.ResolveChatModel | app/main.py:556-635 | a chat request as the route runs it; a failed one leaves neither a chat model nor the embedding server |
| Guard.Gateway.ClearForChat | app/main.py:556-596 | which servers go before a chat model and which model may take their place |
| Guard.Gateway.LoadChat | app/main.py:600-634 | the launch, its one retry without the embedding server, and the restart of that server |
| Guard.Gateway.RouteAudio | app/main.py:1012-1038 | an audio request is refused beside a big chat model, or unloads and loads |
| Guard.Gateway.RouteImage | app/main.py:1547-1558 | an image request unloads what its toggles say and loads |
| Guard.Gateway.RouteMusic | app/main.py:1427-1438 | a music request unloads what its toggles say and loads |
| Guard.Gateway.ResetAll | app/main.py:480-488 | a reset leaves nothing loaded |
| Guard.ChatServed | app/main.py:562-632 | a chat request leaves a chat model live if and only if the one served was live, or the launch succeeds, or the embedding server ran and the second launch succeeds; which model that is; and exactly when the embedding server runs afterwards |
| Guard.OtherServed | app/main.py:1427-1440 | the same for requests of the other roles, which have no second launch |
| Guard.OthersLast | app/main.py:1547-1558 | a request leaves of the other servers exactly those no toggle for it unloads, told server by server |
| Guard.RequestRefused | app/main.py:1012-1030 | a request for a model of another role, or for audio beside a big chat model that blocks it, changes nothing |
| Guard.RunKeepsRule | app/main.py:1027-1038 | with a rule's toggles on, no run of requests, unloads, crashes and resets breaks it |
| Guard.BreakingBreaks | app/main.py:556-600 | with one of them off and a model for every role, two or three plain requests break it |
| Guard.RuleIff | app/main.py:556-600 | in a registry with a model for every role and a large chat model, for each pair of tenants: they are never live together in any run if and only if exactly the named toggles are on |
| Guard.AllRulesIff | app/main.py:1544-1558 | in such a registry, image and music stand alone and big chat models never share with audio if and only if nine toggles are on; `audio_vram_guard` is not among them |
| Guard.NeverSubstituted | app/main.py:562-596 | while audio is unloaded for big models, no request is served by another model than it names |
| Guard.GuardsAreNotAtomic | app/main.py:1547-1558 | a chat request between an image request's guards and its load leaves both live, whatever the toggles |
| Multipart.RequestMultipart | opencode/skills/artist/generate.py:32-51 | the loops over fields and files write the form of those parts in that order |
| Multipart.ExtendField | opencode/skills/artist/generate.py:36-41 | one field's bytes |
| Multipart.ExtendFile | opencode/skills/artist/generate.py:43-50 | one file's bytes |
| Multipart.MultipartParts | app/proxy.py:664-679 | splitting at the delimiter and keeping the pieces with a header |
| Multipart.MultipartField | app/proxy.py:682-691 | the search for a field, as the source runs it |
| Multipart.MultipartFile | app/proxy.py:719-731 | the search for the upload, as the source runs it |
| Multipart.MultipartInjectField | app/proxy.py:694-716 | the insertion of a field, as the source runs it |
| MultipartTheorems.PartsOfPrinted | app/proxy.py:664-679 | for every form whose names can stand in a header the reader finds one piece per part, with its header and payload |
| MultipartTheorems.NamedIff | app/proxy.py:685 | a header matches a looked-up name if and only if it is the part's name, its file name, or what stands between quotes behind a name that ends in the key |
| MultipartTheorems.FilenameRead | app/proxy.py:725-727 | the pattern finds the file name that was written, unless the part's name ends in the pattern's key, and none in a field |
| MultipartTheorems.CleanedIff | app/proxy.py:686-690 | a value survives the reader's trimming if and only if it has no blank at either end and no line break |
| MultipartTheorems.CleanedIs | app/proxy.py:686-690 | what is read of any value: the first line of text in it, without blanks at either end |
| MultipartTheorems.ReplacesAll | app/proxy.py:716 | the closing delimiter is replaced wherever it stands |
| MultipartRoundTrip.FieldRoundTrip | app/proxy.py:682-691 | every lookup in the written form answers as a lookup in the parts |
| MultipartRoundTrip.FieldReadsBackIff | app/proxy.py:682-691 | a field that alone answers to its name is read back unchanged if and only if its value is non-empty, stripped and free of line breaks |
| MultipartRoundTrip.FileRoundTrip | app/proxy.py:719-731 | the upload found is that of the first part that answers to "file" |
| MultipartRoundTrip.FileReadsBackIff | app/proxy.py:725-730 | its content is read back unchanged if and only if it does not end in a carriage return or newline, and its name if and only if the pattern finds it |
| MultipartRoundTrip.ClosingIsLast | app/proxy.py:708-710 | the closing delimiter stands behind all parts and nowhere else |
| MultipartRoundTrip.InjectAppends | app/proxy.py:694-716 | injecting an unreadable field gives the form with that part added last; otherwise nothing changes |
| MultipartRoundTrip.InjectKeepsRest | app/proxy.py:697-701 | after it the field can be read, and every other field and the upload read as before; a field called "file" becomes the upload if there was none |
| Ollama.Adapter.MergeToolCall | app/ollama.py:294-309 | one call delta merged into the calls gathered so far |
| Ollama.Adapter.AccumulatedToolCalls | app/ollama.py:312-325 | the gathered calls that have a name, by index |
| Ollama.AscendingKeys | app/ollama.py:314 | every index once, smallest first |
| Ollama.MergedPlaces | app/ollama.py:297-309 | a call without an index goes to the next free place, arguments that are an object replace the text gathered, and other places stay |
| Ollama.ListedAppend | app/ollama.py:314-318 | items are listed in the order of the indices, each for itself |
| Ollama.Adapter.Handle | app/ollama.py:373-477 | one data line: end mark, error, or delta |
| Ollama.Adapter.HandleEvent | app/ollama.py:368-409 | one event's data lines, up to an error |
| Ollama.Adapter.Feed | app/ollama.py:365-479 | one chunk: complete events are handled, the rest is kept |
| Ollama.Adapter.StreamResponse | app/ollama.py:364-502 | a whole stream yields the records the specification gives for its chunks |
| OllamaTheorems.UnixAgain | app/ollama.py:365 | replacing CRLF in a buffer that has been through it already is replacing it in the whole, if no carriage return precedes a CRLF |
| OllamaTheorems.UnixTwiceIff | app/ollama.py:365 | running the replacement over a kept buffer again changes nothing if and only if no carriage return stands in front of a CRLF |
| OllamaTheorems.BufferSuffices | app/ollama.py:365-367 | keeping only the unfinished event loses no event, if no carriage return precedes a CRLF |
| OllamaTheorems.EventsReadBack | app/ollama.py:365-374 | a stream written event by event is read as its payloads, in order, and nothing is left over |
| OllamaTheorems.DataLinesAdd | app/ollama.py:368-372 | the data lines of an event are read in order, whatever stands between them |
| OllamaTheorems.ClosedIff | app/ollama.py:478-479 | the generator returns early exactly after an error, or when the end mark has come and only blanks are buffered |
| OllamaTheorems.StreamIsDeclared | app/ollama.py:364-502 | with the end mark last and no carriage return before a CRLF, all chunkings give the records of the whole text |
| OllamaTheorems.OneDone | app/ollama.py:376-409 | every stream, however cut, has exactly one done record unless an error is reported, after which nothing follows |
| OllamaTheorems.ContentIsDeltas | app/ollama.py:425-477 | with the end mark last and no carriage return before a CRLF, content and reasoning are the concatenation of the deltas before the first error |
| OllamaTheorems.DeltaYields | app/ollama.py:443-477 | one delta yields its content and then its reasoning, each if there is any |
| OllamaTheorems.LastGiven | app/ollama.py:415-442 | the finish reason is the last one given, or "stop", and the usage the last one reported |
| OllamaTheorems.DoneReports | app/ollama.py:376-401 | the end mark reports the calls gathered from all data lines before it, or none in a generate answer, with the last reason and usage; `StreamDone` carries this to whole streams |
| OllamaTheorems.FragmentsGather | app/ollama.py:294-309 | with explicit indices and string arguments each index gathers exactly its own fragments in order, however they interleave, under its last name |
| OllamaTheorems.StreamDone | app/ollama.py:364-502 | the done record of a stream, however it is cut and whether the end mark comes last or not at all: of the deltas in front of the mark, the calls, the last reason and the last usage; in a chat answer each index has its own fragments in order and its last name |
| OllamaTheorems.AfterDoneUnread | app/ollama.py:478-479 | once the end mark has come and the buffer is blank, no later chunk is read |
| Jsonc.StripJsonc | scripts/install-opencode.py:33-79 | the index-driven loop computes the stripped text |
| Jsonc.SkipLine | scripts/install-opencode.py:59-63 | a line comment ends before its line break |
| Jsonc.SkipBlock | scripts/install-opencode.py:64-69 | a block comment ends behind its closing mark, or takes the rest |
| Jsonc.ClosesAt | scripts/install-opencode.py:70-74 | whether only blanks separate a position from a closing bracket |
| Jsonc.CommentsGone | scripts/install-opencode.py:59-69 | a comment vanishes up to its first end mark or its line break, and nothing behind it does |
| Jsonc.BlockEnds | scripts/install-opencode.py:64-69 | a block comment takes everything up to and with its first end mark, or all of the rest without one |
| Jsonc.LineEnds | scripts/install-opencode.py:59-63 | a line comment takes everything in front of its first line break |
| Jsonc.CommaGoneIff | scripts/install-opencode.py:70-76 | a comma goes if and only if only blanks stand between it and a closing bracket |
| Jsonc.NoCommentLeft | scripts/install-opencode.py:34 | the result has no comment outside strings, for any text |
| Jsonc.LiteralsKept | scripts/install-opencode.py:42-56 | the string literals outside comments come through byte for byte and in order |
| Jsonc.UnchangedIff | scripts/install-opencode.py:33-79 | text is returned unchanged if and only if it has neither comments nor trailing commas |
| Jsonc.TrailingLeftIff | scripts/install-opencode.py:70-76 | a trailing comma remains if and only if some comma is kept apart from its bracket by comments or other trailing commas |
| Jsonc.StrippedOnceIff | scripts/install-opencode.py:34 | stripping twice is stripping once if and only if no such comma exists |
| Jsonc.CommentHidesComma | scripts/install-opencode.py:70-76 | an input for which a trailing comma remains |

## Left out

- SplitterTheorems.StreamIsDeclared: does not model the error event of a job that fails mid-stream, nor the log lines.
- Buffered.StreamAgreesWithBuffer: compares content up to stripping when there is an opening tag, and reasoning always, because the buffered path strips both and the stream has sent them as they came.
- ContextRetry.ProxyJson: does not model the rewriting of the model field; connection errors are one kind of failure.
- ContextRetry.ProxyStream: does not model what an error event says besides its status.
- Reconcile.MatchIsUnambiguous: does not model `_norm` and the similarity ratio, which are arbitrary functions here.
- StreamReconcile.StreamReconciler.Relay: does not model the printing of the synthesized event, which is a function of the calls and the last event seen; call ids are left out.
- StreamReconcile.LinesConserved: speaks of lines, not of server-sent events (section 9.2.6 of the WHATWG HTML standard), because blank lines pass through at once while `data:` lines are held.
- StreamReconcile.SynthesizedDeclared: does not promise that a call executed by the backend is not repeated, because the stream, unlike a whole response, has no list of executed names; `SynthesizedIff` says when that matters.
- LifecycleTheorems.RunSafe: does not model cancellation during a stop, a registry reload during a run, a stop whose signal finds no process, or metrics and swap events.
- LifecycleTheorems.SingleOccupancy: models the managers as values in a step system instead of objects, because interleaving between awaits is the point; updates in place and aliasing of manager fields are not captured.
- LifecycleTheorems.EventsTellTheTruth: does not model when a crash is noticed; the notice is a step of its own that may come late or never, and a load whose process is already known to be gone counts for nothing.
- Guard.RuleIff: does not model a server that has crashed and still looks ready to its manager; a crash shows at once here.
- Guard.AllRulesIff: does not model the routes without guards, `GET /v1/audio/voices` (app/main.py:1287, app/main.py:1301) and `POST /v1/models/{model}/load` (app/main.py:2157), and says nothing about the embedding server, which may run beside image or music.
- Guard.Gateway.ResolveChatModel: does not model how a missing or tagged model name is resolved; the request names the resolved model.
- MultipartRoundTrip.FieldRoundTrip: does not model the search for the boundary in the content type, UTF-8, or a printer that escapes names; names and file names without quotes and blank lines are assumed, because the printer writes them as they are and a quote or a blank line would end them (section 4.2 of RFC 7578).
- MultipartTheorems.PartsOfPrinted: assumes that the delimiter does not occur in a part (section 5.1.1 of RFC 2046), which the printer's random boundary makes likely.
- OllamaTheorems.StreamIsDeclared: does not model durations; the decoding of accumulated arguments as JSON is left to the reader of the record.
- OllamaTheorems.OneDone: does not model the two shapes of a record (chat and generate) except that only the first carries tool calls.
- TokenMeter.StreamTokenMeter.Feed: does not model the estimate of one event, which is part of the decoder.
- Jsonc.LiteralsKept: speaks of the concatenated literals, quotes included.
- The 64 tokens set aside for the marker in `trim_messages` (app/proxy.py:184-185) are computed and never used by the source, so nothing here depends on them.
- `_rewrite_chunk` (app/proxy.py:447-472) works chunk by chunk without a buffer and is not chunk-invariant; it is left out.
- Health polling, subprocess creation, HTTP clients, the event bus's queues, authentication, dashboards, subtitle formats, Ollama's model listings, the exl3 sampler and the shell scripts are left out.
- Idle time: an idle unload may happen at any lock-free moment, because nothing in the source prevents it from hitting a busy model.
