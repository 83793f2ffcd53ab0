# A verified model of the workflow runtime

The repository serves LangGraph workflows behind an OpenAI-style chat completions
endpoint. This project models the parts of it that carry state and protocol, and
proves what they keep over every input, every interleaving and every run.

- `Text.dfy`, `Json.dfy`: strings as Python's `splitlines`, `strip`, `split(" ")`
  treat them, parsed JSON, and the two library calls (`json.loads`, `int`) as a
  parameter `Lib`.
- `TextMeaning.dfy`: what these string functions compute, told without them.
- `Gateway.dfy`: the provider's event stream. Lines are grouped into events at
  blank lines; each event is forwarded and folded into tokens, a sticky first
  error and the `[DONE]` stop.
- `Chunks.dfy`: what a chunk and a list of payloads mean, told by position.
- `Mock.dfy`: the mock provider.
- `Streaming.dfy`: `WorkflowRuntime.stream` as two processes over a queue. The
  code between two awaits is one action; a schedule is any list of enabled
  actions, poll timeouts included. `Expected` is the sequential reference.
- `StreamSession.dfy`: the variables of one call of `stream` as a class whose
  methods are those actions, updated in place.
- `Partition.dfy`, `EndToEnd.dfy`: holding terminal events back is a stable
  partition of the forwarded events; what a client that decodes the stream makes
  of it. `Interrupts.dfy` is the same for a run that stops for a review, and
  `Wire.dfy` for the text on the wire. `Limits.dfy` holds the inputs that need the
  conditions of these results.
- `Classifier.dfy`: which events are held back, told on their lines, and what
  becomes of them in every run; the wrapper's chunks.
- `Printing.dfy`: the printed content chunk is JSON for the chunk.
- `Fairness.dfy`: runs that never end.
- `Messages.dfy`, `History.dfy`: request messages, normalisation, and the delta
  between a stored history and a request.
- `Chat.dfy`, `Clients.dfy`, `Sessions.dfy`: the conversation turn, the two client
  protocols over unbounded runs, and the store keyed by thread id.
- `Requests.dfy`: from the messages of a request to those the provider gets.
- `Hitl.dfy`: the draft workflow with human review, and the summary workflow.
- `Router.dfy`: the pull of the first item before the response starts.
- `Runs.dfy`, `StreamingClients.dfy`: a client that resends what it decodes from
  the stream, over whole runs.
- `Agreement.dfy`: streamed text against the text `run_once` returns and the
  answer the store keeps.

Assumptions. A client's reading of a printed wrapper chunk gives the chunk back,
so wrapper chunks are kept as JSON values. `Wire.dfy` states what this asks of the
printer: one line per chunk. The runtime prints without ASCII escapes, so a client
that splits lines as Python does needs content without U+0085, U+2028 and U+2029
(`ContentReadBackIff`). Ids are never looked at: appended messages get fresh ones. The store
is a map from thread id to the last completed state. Roles are lowered on ASCII
letters, which decides the comparison with the four role names as full lowering
would.

Eight plausible claims are false of the code. Each has an input and an exact
condition:

- "Every unfinished state of the stream has an enabled step other than a poll
  timeout." When the run finishes while the consumer waits on an empty queue, only
  the timeout helps (`TimeoutIsNeeded`, `NonTimeoutEnabledIff`). The stream still
  ends under fairness (`FairRunsEnd`, `PromptRunsEnd`).
- "A passthrough client sees the content in the provider's order." A terminal
  event with content is sent after later content (`LateContentIsReordered`,
  `ContentInOrderIff`).
- "The wrapper's `[DONE]` is the only one, and the client reads the tool calls of
  an interrupted run." The classifier looks at an event's first data line, the
  gateway at all of them; an event with a `[DONE]` further down is forwarded at
  once (`EarlyDoneHidesToolCalls`, `ToolCallsReadIff`).
- "A draft request streams the draft under review" (docs/usage.md:44). With a
  provider whose events are forwarded, an interrupted run drops the held-back ones
  with their text (`FinishedDraftIsLost`, `HitlPassthroughIff`).
- "The stream terminates with `data: [DONE]`" (docs/usage.md:46). A stream the
  wrapper closes does; a passthrough stream depends on the provider
  (`StreamEndsWithoutDone`, `PassthroughEndsWithDoneIff`).
- "The merged history is the shortest that keeps both sides." A shared first
  message hides a longer overlap (`PrefixHidesOverlap`, `MergeIsShortestIff`).
- "The stored history is the transcript of a client that resends it." Two inputs
  break it. An empty answer is stored but never resent, and later turns are stored
  twice, for good (`EmptyAnswerDuplicates`, `TranscriptStoredAgain`). A later turn
  without text brings back the last answer, which the client then resends as a new
  one (`SilentTurn`). Nothing else does, short of a retry before any request
  (`SayAppendsOnce`, `FullHistoryIff`).
- "Different sessions have different threads." A value that holds a label beside
  it makes two of them one (`ThreadIdsCollide`, `ThreadIdsCollideIff`).

docs/usage.md:41 says that the first streamed chunk has the assistant role. The
runtime emits no such chunk, and the model follows the runtime.

## Model

| member | source | states |
|---|---|---|
| Text.SplitLinesAcrossNewline | src/infrastructure/llm/gateway.py:275-281 | joining lines with a newline and splitting again keeps the non-blank lines, whatever breaks the lines hold, `\r` at the end included |
| Text.SplitSpacesRejoin | src/infrastructure/llm/gateway.py:78-83 | splitting an answer at spaces and yielding the spaces as tokens loses nothing |
| TextMeaning.SplitLinesMeaning | src/infrastructure/llm/gateway.py:275-281 | any of the ten line breaks ends a line, a carriage return with a newline is one break, and nothing else breaks a line |
| TextMeaning.StripMeaning | src/infrastructure/llm/gateway.py:284 | stripping leaves exactly the text without the white space at its two ends |
| TextMeaning.RoleMeaning | src/infrastructure/persistence/runtime.py:443 | a stripped and lowered role is a word if and only if the role spells the word in any capitals, with white space around it |
| TextMeaning.SplitOfJoin | src/infrastructure/llm/gateway.py:78-83 | a text is split at spaces into the words it was joined of |
| Gateway.StreamErrorIsFailure | src/infrastructure/llm/gateway.py:236-264 | an extracted upstream error has a status of at least 400 and a message |
| Chunks.ContentMeaning | src/infrastructure/llm/gateway.py:208-234 | the content of a chunk is the string of the delta of its first choice, or its text parts in order; without either it is the text of the choice |
| Chunks.ErrorMeaning | src/infrastructure/llm/gateway.py:236-264 | which chunks report an error, with which message, and with which status: its own from 400 on, `status` before `status_code`, and 502 otherwise |
| Chunks.PayloadOfLine | src/infrastructure/llm/gateway.py:281-285 | the payload of a line is the stripped rest after "data:", if it is not blank |
| Chunks.AnswerMeaning | src/infrastructure/llm/gateway.py:279-317 | the answer is the non-empty contents up to the first payload that is `[DONE]` or reports an error, told by position, and the error is that of this payload |
| Chunks.OneChunkResponse | src/infrastructure/llm/gateway.py:281-317 | the token and the error of a response with one chunk |
| Gateway.JoinedPayloads | src/infrastructure/llm/gateway.py:275-284 | reading an event's payloads equals reading each of its lines, with no assumption on the lines |
| Gateway.ScanMeaning | src/infrastructure/llm/gateway.py:279-317 | the fold yields the contents before both the first error and the first `[DONE]`, and the first error before it |
| Gateway.ConsumeStreamPayload | src/infrastructure/llm/gateway.py:266-317 | one event is forwarded once, the caller's buffer is emptied, and the result is the fold of the event's payloads from the error it was given |
| Gateway.StreamOpenAiCompatible | src/infrastructure/llm/gateway.py:126-162 | the nested loop with its break and its unterminated last event yields the tokens and error of one flat pass over the payloads of all lines, and forwards the events through the one with the first `[DONE]` |
| Gateway.BlankLinesIrrelevant | src/infrastructure/llm/gateway.py:127-132 | inserting or removing a blank line changes no payload, hence no token and no error |
| Gateway.FramingRoundTrip | src/infrastructure/llm/gateway.py:126-153 | a client that splits the concatenated frames and regroups them gets the forwarded events back; they are the non-blank input lines in order, up to the event that ends the stream |
| Gateway.FramingRoundTripOfText | src/infrastructure/llm/gateway.py:127-153 | the same for every response text |
| Gateway.JoinTokens | src/workflows/demo_chat/nodes/chat.py:52-61 | the nodes' accumulation loop joins all tokens in order |
| Mock.StreamMock | src/infrastructure/llm/gateway.py:63-84 | the tokens spell the mock answer, made of the last user text and the number of earlier users; frames are the non-empty tokens |
| Mock.FramesKeepText | src/infrastructure/llm/streaming.py:32-36 | dropping empty tokens loses no text |
| Mock.MockRepeatsLastUser | src/infrastructure/llm/gateway.py:72-77 | the mock spells the codes, the last user message, and the number of earlier user messages, if any |
| Mock.MockTokensMeaning | src/infrastructure/llm/gateway.py:78-83 | its tokens are words without spaces, with one space between neighbours |
| Mock.TokenFramesMeaning | src/infrastructure/llm/streaming.py:32-36 | frames are the non-empty tokens in order, and there are none when the client does not stream |
| Streaming.StepKeepsInv | src/infrastructure/persistence/runtime.py:262-311 | every action of either process keeps the consumer's variables determined by the frames taken so far |
| Streaming.ScheduleIndependence | src/infrastructure/persistence/runtime.py:238-380 | under every interleaving the output so far is a prefix of the sequential output, and a finished run has yielded all of it with the same ending |
| Streaming.TailAfterAllFrames | src/infrastructure/persistence/runtime.py:263-265 | in every run a tail is chosen only when the graph run has finished and all of its frames have been taken, and the loop test passes exactly then |
| Streaming.ProducerNeverWaits | src/infrastructure/persistence/runtime.py:238-257 | from any reachable state the run can write all of its frames and finish, with nothing taken and nothing sent |
| Streaming.FrameIsTakenAtOnce | src/infrastructure/persistence/runtime.py:263-292 | a queued frame is sent or held back at the next poll, whether the run goes on or not |
| Classifier.ClassifierMeaning | src/infrastructure/persistence/runtime.py:583-607 | an event is judged by its first line that begins with "data:", whatever comes before it: terminal if and only if the stripped rest is `[DONE]` or an object whose first choice has a finish reason that is not null |
| Classifier.NoDataNotTerminal | src/infrastructure/persistence/runtime.py:603-607 | an event without such a line is never held back |
| Classifier.EndingEventIsHeldBack | src/infrastructure/persistence/runtime.py:284-305 | in no run is an event that ends the answer sent while frames are taken; a run that ends has sent it, before terminal events only, if and only if it was answered or failed with an HTTP error |
| Classifier.OtherEventIsForwarded | src/infrastructure/persistence/runtime.py:284-290 | any other event has been sent once its frame is taken |
| Classifier.EveryChunkIsOurs | src/infrastructure/persistence/events.py:12-29 | in every run each chunk of the wrapper carries the ids of the stream and one choice with content, the tool calls, or the finish reason |
| Classifier.AnsweredTokenRun | src/infrastructure/persistence/runtime.py:349-380 | the whole output of an answered run on tokens: a content chunk for each, the returned content if there was none, the finish reason, `[DONE]` |
| Streaming.TerminalLastInEveryRun | src/infrastructure/persistence/runtime.py:284-292 | in every run, finished or cut short, no event the classifier rejects follows one it accepts |
| Streaming.WrapperSendsOneDone | src/infrastructure/persistence/runtime.py:312-331 | a wrapper tail ends with its finish reason and `[DONE]`; no event that starts with one is left before it, and it is the only one in the stream if and only if no event forwarded at once holds one further down, which a token stream never does |
| Streaming.FailedRunStaysOpen | src/infrastructure/persistence/runtime.py:307-310 | a run that fails with another error yields no terminal event, held-back ones included |
| Streaming.FirstPull | src/infrastructure/persistence/runtime.py:293-311 | the generator never completes without yielding; an HTTP error leaves it exactly when no event was forwarded before, and leaves it first exactly when nothing was emitted |
| Streaming.StepMeasure | src/infrastructure/persistence/runtime.py:263-294 | every action but a poll timeout lowers a measure, a timeout raises it by one |
| Streaming.NonTimeoutEnabledIff | src/infrastructure/persistence/runtime.py:264-269 | an unfinished state has an enabled action other than a timeout if and only if the consumer is not waiting on an empty queue with the run finished |
| Streaming.TimeoutIsNeeded | src/infrastructure/persistence/runtime.py:264-269 | a schedule that reaches the state where only the timeout helps |
| Streaming.RunLength | src/infrastructure/persistence/runtime.py:263-294 | the length of a run is bounded by the initial measure and twice its timeouts |
| Streaming.TimeoutUnavoidable | src/infrastructure/persistence/runtime.py:264-269 | from a state that waits on a queue that stays empty, every run that ends has a timeout |
| Streaming.CanAlwaysEnd | src/infrastructure/persistence/runtime.py:263-294 | every reachable state can be run to its end, with one timeout exactly when it waits on a queue that stays empty, and none otherwise |
| Fairness.FairRunsEnd | src/infrastructure/persistence/runtime.py:262-294 | no endless run is fair: if the graph run gets on whenever it stays able to, and a poll that finds a frame again and again takes one at last, the stream ends |
| Fairness.PromptRunsEnd | src/infrastructure/persistence/runtime.py:266-269 | when a poll that begins with a frame in the queue takes it, as `wait_for` of Python 3.12 does, the stream ends with no fairness asked of the consumer |
| Fairness.WeakFairnessIsNotEnough | src/infrastructure/persistence/runtime.py:266-269 | without that, weak fairness is not enough: the model also has an endless run in which each poll times out beside a waiting frame, which Python 3.12 does not produce |
| StreamSession.Session.ReceiveFrame | src/infrastructure/persistence/runtime.py:266-292 | a dequeued frame is counted, then forwarded, wrapped or held back, as the protocol's action says |
| StreamSession.Session.Drive | src/infrastructure/persistence/runtime.py:262-380 | a session driven by any schedule that reaches its end has yielded the sequential output |
| Partition.PartitionKeepsOrderIff | src/infrastructure/persistence/runtime.py:284-290 | moving late elements behind the others keeps the order of the marked ones if and only if no marked early element follows a marked late one |
| Partition.PartitionPermutes | src/infrastructure/persistence/runtime.py:284-290 | holding back loses and duplicates nothing |
| EndToEnd.ContentInOrderIff | src/infrastructure/persistence/runtime.py:284-290 | a passthrough client sees the content-carrying events in the provider's order if and only if after a terminal event with content every event is terminal, or has neither content nor `[DONE]` |
| EndToEnd.ForwardedIsPartition | src/infrastructure/persistence/runtime.py:284-290 | body and pending events are the two halves of the partition |
| EndToEnd.PassthroughMeansAnswer | src/infrastructure/persistence/runtime.py:332-348 | without an upstream error and under that order condition, every complete run makes the client decode exactly the joined tokens |
| EndToEnd.PassthroughDeliversAll | src/infrastructure/persistence/runtime.py:293-305 | whether the run answers or fails with an HTTP error, every forwarded event is delivered once and the stream completes |
| EndToEnd.UpstreamErrorReachesClientIff | src/infrastructure/persistence/runtime.py:295-305 | after a provider error the stream completes, and the client reads an error if and only if no early `[DONE]` cuts off the held-back events, or an event that is not terminal reports one |
| Interrupts.InterruptDropsLate | src/infrastructure/persistence/runtime.py:312-331 | an interrupted run sends the events that are not terminal, then the tool calls, the finish reason and `[DONE]`; the held-back events are dropped |
| Interrupts.ToolCallsReadIff | src/infrastructure/persistence/runtime.py:286-331 | a client that stops at the first `[DONE]` reads the tool calls, and the wrapper's `[DONE]` is the only one, if and only if the provider's last event is not one that holds a `[DONE]` without being terminal |
| Interrupts.InterruptedTextIff | src/infrastructure/persistence/runtime.py:286-331 | the client of an interrupted run decodes the text of the events that are not terminal, which is the joined answer if and only if no terminal event carries content |
| Interrupts.PassthroughEndsWithDoneIff | src/infrastructure/persistence/runtime.py:332-348 | a passthrough stream ends with a `[DONE]` if and only if the provider's last event holds one and is terminal, or no event is terminal |
| Wire.ReadWire | src/infrastructure/persistence/runtime.py:286-292 | reading the concatenated text of any outputs gives what reading them one by one gives |
| Wire.WireOfRun | src/infrastructure/persistence/runtime.py:262-380 | in every run on forwarded events, a client that splits the text into lines reads the outputs as the other results say, when the chunks are printed on one line and parse back |
| Wire.ContentReadBackIff | src/infrastructure/persistence/runtime.py:291-292 | a client that splits lines reads a printed content chunk back if and only if neither the content nor the ids sent with it hold U+0085, U+2028 or U+2029 |
| Printing.PrintedContentIsChunk | src/infrastructure/persistence/runtime.py:291-292 | the text printed for a content chunk is JSON for that chunk: its members, each once, with strings that are read back as they were |
| Printing.EscapingRoundTrip | src/infrastructure/persistence/runtime.py:291-292 | reading an escaped string gives the string back |
| Limits.LateContentIsReordered | src/infrastructure/persistence/runtime.py:286-288 | for any parser that reads a chunk "x" with a finish reason and a chunk "y" after it: the answer is "xy", and under every schedule the passthrough client decodes "yx" |
| Limits.PrintedChunkIsOneLine | src/infrastructure/llm/gateway.py:279-287 | a chunk text as a provider prints it is one payload of one line, as the inputs here ask |
| Limits.EarlyDoneHidesToolCalls | src/infrastructure/persistence/runtime.py:286-331 | an event whose second data line is `[DONE]` is forwarded at once, and the client of the interrupted run never reads the tool calls |
| Limits.FinishedDraftIsLost | src/infrastructure/persistence/runtime.py:312-331 | a draft that comes with its finish reason is put under review, and the client decodes nothing |
| Limits.StreamEndsWithoutDone | src/infrastructure/persistence/runtime.py:332-348 | a provider that closes without a `[DONE]` leaves the completed stream without one |
| Messages.MessageText | src/infrastructure/persistence/runtime.py:461-475 | the text of a content value is that of its text parts, in order |
| Messages.LastToolOrUserText | src/infrastructure/persistence/runtime.py:573-581 | the text of the last tool or user message that has one |
| Messages.LastTextFromInputMessages | src/workflows/common/input_messages.py:7-23 | the same scan over parsed values |
| Messages.ExtractorsAgree | src/workflows/common/input_messages.py:7-54 | on the dumped request the nodes read the text the runtime reads from the request |
| Messages.BuildUsage | src/application/services/chat_completion_service.py:33-52 | the prompt counter is the total length of the message texts the extractors read |
| Requests.ContentText | src/infrastructure/persistence/runtime.py:461-475 | the text of a content is the string, or the texts of its parts of type "text" in order |
| Requests.InputMeaning | src/infrastructure/persistence/runtime.py:573-581 | the extractors accept exactly the tool and user messages with text |
| Messages.DumpFields | src/infrastructure/persistence/runtime.py:438-439 | a dumped message has the four fields of the request message |
| History.NormalizeRequestMessages | src/infrastructure/persistence/runtime.py:430-459 | the loop drops empty messages and numbers tool messages by raw position |
| History.NormalizeSplit | src/infrastructure/persistence/runtime.py:430-459 | normalising a longer request extends the normalisation of its beginning |
| History.MessagesDelta | src/infrastructure/persistence/runtime.py:477-495 | the loops compute the request without its known front |
| History.DropCountMeaning | src/infrastructure/persistence/runtime.py:477-495 | the known front is the longest common prefix when both begin alike, and the longest overlap otherwise |
| History.DeltaLosesNothing | src/infrastructure/persistence/runtime.py:477-495 | the delta is a suffix of the request and the dropped front is stored already |
| History.MergeIsShortestIff | src/infrastructure/persistence/runtime.py:483-495 | the merge is the shortest sequence beginning with the history and ending with the request if and only if the two begin differently, or their longest common prefix is as long as their longest overlap |
| History.ExtensionIsShortest | src/infrastructure/persistence/runtime.py:483-489 | so it is when the request resends the whole history: the merge is the request |
| History.MergeIsShortest | src/infrastructure/persistence/runtime.py:491-495 | so it is whenever the first messages differ |
| History.PrefixHidesOverlap | src/infrastructure/persistence/runtime.py:483-489 | a window for which the prefix branch stores a message twice |
| Chat.PromptComesFirst | src/workflows/demo_chat/nodes/chat.py:28-34 | the provider sees the whole history in order, with at most the configured prompt put before it |
| Chat.ChatNode | src/workflows/demo_chat/nodes/chat.py:52-76 | the node appends exactly one assistant message with the joined tokens |
| Requests.UpstreamMeaning | src/workflows/demo_chat/nodes/chat.py:28-34 | for any history that holds a request normalised, the provider gets its messages with text, each in place with its role, text and tool id (the one given, or "tool-" and the position); the prompt comes first if and only if there is one and no message has the role "system" |
| Requests.EachInItsPlace | src/workflows/demo_chat/nodes/chat.py:82-107 | when every message has text, message i of the request is message i for the provider, behind the prompt if there is one |
| Requests.TranscriptReachesProvider | src/infrastructure/persistence/runtime.py:78-129 | over any run of a full-history client that goes well, the provider sees at each turn the whole transcript in this form |
| Chat.LastAssistantText | src/infrastructure/persistence/runtime.py:522-529 | the latest non-empty assistant text |
| Chat.Runtime.RunOnce | src/infrastructure/persistence/runtime.py:78-141 | the thread's new history and the content returned; other threads, and the whole store on a cached answer, are unchanged |
| Clients.SayAppendsOnce | src/infrastructure/persistence/runtime.py:78-129 | a turn with text of a client in step runs the graph once and stores its messages and the answer; after any turn the stored history equals the normalised transcript if and only if the answer is not empty and the turn has text or is the first |
| Clients.SilentTurn | src/infrastructure/persistence/runtime.py:82-102 | a later turn without text, such as one of image parts alone, returns the last answer, stores nothing, and leaves the transcript with that answer twice |
| Clients.AfterSilentTurn | src/infrastructure/persistence/runtime.py:444-495 | the next turn with text stores the answer a second time |
| Clients.TranscriptStoredAgain | src/infrastructure/persistence/runtime.py:444-495 | after an empty answer at any turn, every later turn with text stores the transcript from that position again |
| Clients.NeverInStepAgain | src/infrastructure/persistence/runtime.py:78-129 | after an empty answer no later event of any kind makes the stored history equal the transcript again |
| Clients.EmptyAnswerDuplicates | src/infrastructure/persistence/runtime.py:444-495 | a run of three turns whose first answer is empty stores the second question and its answer twice |
| Clients.RetryChangesNothing | src/infrastructure/persistence/runtime.py:82-102 | resending the last request, with or without the answer, changes nothing and returns the same answer |
| Clients.FullHistoryInvariant | src/infrastructure/persistence/runtime.py:78-129 | over any run in which each turn but the first has text, each answer is not empty, and retries follow an answer, the stored history is the normalised transcript, and the graph has run once per new request |
| Clients.FullHistoryIff | src/infrastructure/persistence/runtime.py:78-129 | these are exactly the runs after each event of which the stored history is the normalised transcript |
| Clients.DeltaTurnIff | src/infrastructure/persistence/runtime.py:477-495 | a single user message is stored with its answer if and only if it differs from the first stored message |
| Clients.RepeatedFirstMessage | src/infrastructure/persistence/runtime.py:82-102 | a repeated first message returns the latest answer and stores nothing |
| Clients.DeltaOnlyRun | src/infrastructure/persistence/runtime.py:477-495 | for every model, a delta-only client's history is its messages, each followed by one answer |
| Clients.DeltaOnlyDialogue | src/infrastructure/llm/gateway.py:72-77 | with the mock, turn n is stored with an answer that reports the n earlier users |
| Sessions.ThreadIdInjective | src/domain/auth/models.py:13-19 | when no value holds the label that follows it, thread ids are equal if and only if the sessions are, taking a missing, an empty and a "-" user as one; a pipe alone does no harm |
| Sessions.SameThreadIff | src/domain/auth/models.py:13-19 | two requests are on one thread if and only if workflow, system code and session id are equal, and the user ids are equal or both missing, empty or "-"; for a session that stands alone and any other, or two whose values hold no following label |
| Sessions.ThreadIdText | src/domain/auth/models.py:13-19 | the thread id, written out |
| Sessions.AloneSharesNothing | src/domain/auth/models.py:13-19 | a session whose values hold no label beside them shares its thread id with no other session at all |
| Sessions.ThreadIdsCollideIff | src/domain/auth/models.py:13-19 | a session shares its thread id with a different one if and only if one of its values holds a label beside it, except for a user id that begins with the session label or ends with the user label |
| Sessions.SeparablePartnerIff | src/domain/auth/models.py:13-19 | a session shares its thread id with a different one whose values do not hold the label that follows them if and only if one of its own values does |
| Sessions.PipeFreeIsAlone | src/domain/auth/models.py:13-19 | values without a pipe hold no label |
| Sessions.ThreadIdsCollide | src/domain/auth/models.py:13-19 | for every user id that holds the session label behind a first character, the other session with the same id |
| Sessions.ThreadSeesItsOwn | src/infrastructure/persistence/runtime.py:393-428 | after any interleaving a thread is what its own requests made of it |
| Sessions.SessionIsolation | src/infrastructure/persistence/runtime.py:393-428 | the history of a session that stands alone depends on its own requests only, whatever the values of the other requests hold |
| Hitl.GenerateDraft | src/workflows/demo_hitl/nodes/generate.py:26-65 | the draft is the joined answer to the prefix and the last input text |
| Hitl.Summarize | src/workflows/demo_summary/nodes/summarize.py:26-67 | the summary likewise, with prefix and suffix |
| Requests.DraftQuestion | src/workflows/demo_hitl/nodes/generate.py:26-65 | the provider is asked one user message: the prefix and the text of the last tool or user message that has one |
| Requests.SummaryQuestion | src/workflows/demo_summary/nodes/summarize.py:26-67 | likewise with prefix and suffix |
| Hitl.ResumePayload | src/infrastructure/persistence/runtime.py:555-562 | the text of the last tool message with string content |
| Hitl.RestartForgets | src/infrastructure/persistence/runtime.py:142-227 | a request without a review starts a thread over: whatever the thread was and did before, every later state and response is the one it would have had without it |
| Hitl.ReviewTraceability | src/workflows/demo_hitl/nodes/review.py:25-39 | over every run, tool calls are returned exactly when the thread waits with that draft; a final answer directly follows and is the review, or that draft when the review is empty |
| Hitl.ReviewOutcome | src/workflows/demo_hitl/nodes/review.py:25-39 | over every run, a review with text finishes the thread with that text, and an empty one with the draft the thread had asked about; this is what is returned, or nothing when both are empty |
| Router.BindStream | src/app/api/routers/openai.py:59-70 | the pulled item and the rest are the full stream |
| Router.FirstPullIsSafe | src/app/api/routers/openai.py:157-187 | over every complete run the endpoint never meets an empty generator, and answers a JSON error (504 or 502) exactly when the provider failed before anything was emitted |
| Router.Serve | src/app/api/routers/openai.py:157-194 | the endpoint on a driven stream: under every schedule the same response, an error (504 or 502) exactly when the provider failed before anything was emitted, and otherwise the whole stream |
| Agreement.StreamedText | src/infrastructure/persistence/runtime.py:291-380 | the content deltas spell the streamed tokens, or the returned text when there were none |
| Agreement.ChatStreamAgrees | src/infrastructure/persistence/runtime.py:349-380 | a token-streamed chat request streams the content `run_once` returns, cached answers included |
| Agreement.HitlStreamAgrees | src/infrastructure/persistence/runtime.py:312-380 | with a provider that streams tokens, a first draft request streams the draft under review; a resume streams the final text |
| Agreement.HitlPassthroughIff | src/infrastructure/persistence/runtime.py:312-331 | with a provider whose events are forwarded, the client decodes the draft under review if and only if no terminal event carries content |
| Agreement.SummaryStreamAgrees | src/infrastructure/persistence/runtime.py:349-380 | a token-streamed summary streams the content `run_once` returns, which is the joined answer |
| Agreement.SummaryPassthroughAgrees | src/infrastructure/persistence/runtime.py:332-348 | under the order condition a passthrough client decodes the content `run_once` returns for the summary |
| Agreement.ClientDecodesStoredAnswer | src/workflows/demo_chat/nodes/chat.py:52-76 | under every schedule a passthrough client decodes exactly the assistant message that the turn stored |
| StreamingClients.HeardRunIsRun | src/infrastructure/persistence/runtime.py:332-380 | over any run, whose turns are streamed under any schedules, a client that resends what it decodes is in the same state as one that resends what `run_once` returns |
| StreamingClients.StreamedTranscriptIsStored | src/infrastructure/persistence/runtime.py:78-129 | so what a streaming client resends is what is stored, and the graph runs once per new request |
| StreamingClients.ReorderedAnswerStoredToo | src/infrastructure/persistence/runtime.py:286-288 | after an answer "xy" that was decoded as "yx", the next turn stores "yx" beside "xy" |

## Left out

- The HTTP client and its retries, header building, configuration providers and Nacos: library internals and lookups.
- An exception raised while response lines are being read: it is not a provider error and belongs to the HTTP library.
- Checkpoint contents after a failed graph run, and resuming a thread that does not wait: LangGraph decides both.
- Client disconnect and cancellation, and that a timed-out `queue.get` loses no frame: asyncio decides what the generator sees.
- The graph cache across stop and start, logging, context variables, Langfuse, health routes and error bodies: plumbing.
- Stored messages with list content: every message the runtime stores has string content.
- `_normalize_interrupt` and the text of the tool-call arguments: the tool calls are an arbitrary JSON value here.
- `last_text_from_input_messages` with roles other than the default: no node passes them.
- EndToEnd.UpstreamErrorReachesClientIff: it does not say which of several upstream errors the client reads first, because holding back an event that reports one can change which comes first.
- EndToEnd.PassthroughMeansAnswer: the order condition is sufficient for equal text, and exact for the order of the events (ContentInOrderIff), because equal texts in another order are indistinguishable as text.
- Chat.Runtime.RunOnce: concurrent requests to one thread are served one after the other.
