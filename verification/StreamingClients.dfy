/** A client that resends its transcript and reads each answer from the stream:
    what it hears becomes part of its next request. */
module StreamingClients {
  import opened Text
  import opened Json
  import opened Gateway
  import opened Streaming
  import opened EndToEnd
  import opened Messages
  import opened History
  import opened Chat
  import opened Runs
  import opened Clients
  import opened Agreement
  import opened Wire
  import opened Limits

  /** One streamed response: the provider's lines, and the schedule of the stream. */
  datatype Streamed = Streamed(env: Env, lines: seq<string>, schedule: seq<Action>)

  /** The text the client makes of it. */
  function Heard(s: Streamed): string
    requires Legal(s.env, Start(ForwardedFrames(true, s.lines)), s.schedule)
  {
    DecodedText(s.env, Yielded(s.env, ForwardedFrames(true, s.lines), s.schedule))
  }

  /** The streamed response of a turn: the provider answers without an error and
      with its content in order, and is not asked when the history answers. */
  ghost predicate Streams(prompt: string, model: Model, history: seq<Message>, request: seq<ReqMessage>, s: Streamed) {
    && s.env.outcome == Answered(ChatTurn(prompt, model, history, request).content)
    && Complete(s.env, ForwardedFrames(true, s.lines), s.schedule)
    && StreamError(s.env.lib, LinePayloads(s.lines)).None? && InOrder(s.env.lib, SentEvents(s.lines))
    && ChatTokens(prompt, model, history, request) == AnswerTokens(s.env.lib, LinePayloads(s.lines))
    && (!ChatTurn(prompt, model, history, request).executed ==> s.lines == [])
  }

  /** Without a provider's answer the wrapper sends the content. */
  lemma ContentResponse(env: Env, content: string)
    requires env.outcome == Answered(Some(content)) && content != ""
    ensures ReadAll(env.lib, START, Expected(env, [])).tokens == [content]
  {
    var chunk, finish := ContentChunk(env.meta, content), FinishChunk(env.meta, "stop");
    ChunkChoice(env.meta, map["content" := JStr(content)], JNull);
    ChunkHasNoError(env.meta, map["content" := JStr(content)], JNull);
    var next := START.(tokens := START.tokens + [content]);
    assert ReadOutput(env.lib, START, chunk) == next;
    ReadFinish(env.lib, env.meta, next);
    assert Expected(env, []) == [chunk, finish, Output.Done];
    assert [chunk, finish, Output.Done][1..] == [finish, Output.Done];
    assert [finish, Output.Done][1..] == [Output.Done] && [Output.Done][1..] == [];
    assert ReadAll(env.lib, next, [finish, Output.Done]) == ReadAll(env.lib, next, [Output.Done]);
    assert ReadAll(env.lib, next, [Output.Done]) == ReadAll(env.lib, ReadOutput(env.lib, next, Output.Done), []);
  }

  lemma {:induction false} LastAssistantIsText(history: seq<Message>)
    ensures LastAssistant(history) != Some("")
  {
    if history == [] {
    } else {
      LastAssistantIsText(history[..|history| - 1]);
    }
  }

  /** The client hears the content that `run_once` returns. */
  lemma HeardIsContent(prompt: string, model: Model, history: seq<Message>, request: seq<ReqMessage>, s: Streamed)
    requires Streams(prompt, model, history, request, s)
    ensures NonEmpty(Heard(s)) == ChatTurn(prompt, model, history, request).content
  {
    var turn := ChatTurn(prompt, model, history, request);
    if turn.executed {
      PassthroughMeansAnswer(s.env, s.lines, Flatten(AnswerTokens(s.env.lib, LinePayloads(s.lines))), s.schedule);
    } else {
      LastAssistantIsText(history);
      assert ForwardedFrames(true, []) == [];
      CompleteRun(s.env, [], s.schedule);
      ContentResponse(s.env, turn.content.value);
      FlatMapOne<string, char>(Same, turn.content.value);
    }
  }

  // ------------------------------------------------------------------ whole runs

  /** A turn of a client whose transcript gains what it has heard. */
  function HearStep(prompt: string, c: Client, e: Event, heard: string): Client {
    var turn := TurnOf(prompt, c, e);
    var runs := c.runs + if turn.executed then 1 else 0;
    match e
    case Say(messages, _) =>
      var request := c.transcript + messages;
      Client(request + [Reply(NonEmpty(heard))], request, heard, turn.history, runs)
    case Retry(_, _) => c.(answer := heard, history := turn.history, runs := runs)
  }

  /** Hearing the content is stepping as the client of `run_once` does. */
  lemma HearingIsStepping(prompt: string, c: Client, e: Event, s: Streamed)
    requires Streams(prompt, e.model, c.history, RequestOf(c, e), s)
    ensures HearStep(prompt, c, e, Heard(s)) == StepClient(prompt, c, e)
  {
    HeardIsContent(prompt, e.model, c.history, RequestOf(c, e), s);
  }

  /** A run of the streaming client: events, and the response streamed to each. */
  ghost predicate StreamedRun(prompt: string, events: seq<Event>, streams: seq<Streamed>)
    decreases |events|
  {
    |streams| == |events| &&
    (events == [] ||
     var n := |events| - 1;
     && StreamedRun(prompt, events[..n], streams[..n])
     && var c := HeardRun(prompt, events[..n], streams[..n]);
        Streams(prompt, events[n].model, c.history, RequestOf(c, events[n]), streams[n]))
  }

  /** What the streaming client and the store become. */
  ghost function HeardRun(prompt: string, events: seq<Event>, streams: seq<Streamed>): Client
    requires |streams| == |events|
    decreases |events|
  {
    if events == [] then NEWCOMER
    else
      var n := |events| - 1;
      var c := HeardRun(prompt, events[..n], streams[..n]);
      var s := streams[n];
      if Legal(s.env, Start(ForwardedFrames(true, s.lines)), s.schedule)
      then HearStep(prompt, c, events[n], Heard(s))
      else c
  }

  /** Over any run, and under any schedules, a client that streams is in the same
      state as one that does not. */
  lemma {:induction false} HeardRunIsRun(prompt: string, events: seq<Event>, streams: seq<Streamed>)
    requires StreamedRun(prompt, events, streams)
    ensures HeardRun(prompt, events, streams) == RunClient(prompt, events)
  {
    if events == [] {
    } else {
      var n := |events| - 1;
      HeardRunIsRun(prompt, events[..n], streams[..n]);
      HearingIsStepping(prompt, RunClient(prompt, events[..n]), events[n], streams[n]);
      RunOneMore(prompt, events[..n], events[n]);
      LastApart(events);
    }
  }

  /** So what it has heard, resent in full, is what is stored, and the graph runs
      once for each new request. */
  lemma StreamedTranscriptIsStored(prompt: string, events: seq<Event>, streams: seq<Streamed>)
    requires StreamedRun(prompt, events, streams) && FullHistoryRun(prompt, events)
    ensures InStep(HeardRun(prompt, events, streams))
    ensures HeardRun(prompt, events, streams).runs == SayCount(events)
  {
    HeardRunIsRun(prompt, events, streams);
    FullHistoryInvariant(prompt, events);
  }

  // ------------------------------------------------------------ out of order

  function SaysTwo(x: string, y: string): Model { upstream => [x, y] }

  /** What a client that heard another text than the stored answer makes the store
      keep at its next turn: both. */
  lemma HeardOtherwise(prompt: string, c: Client, q: string, stored: string, heard: string, r: string, model: Model)
    requires q != "" && r != "" && heard != "" && heard != stored
    requires ProjectAll(c.history) == ProjectAll([HumanMessage(q), AiMessage(stored)])
    requires c.transcript == UserRequest(q) + [Reply(NonEmpty(heard))]
    ensures var next := StepClient(prompt, c, Say(UserRequest(r), model));
            ProjectAll(next.history)
            == ProjectAll([HumanMessage(q), AiMessage(stored), AiMessage(heard), HumanMessage(r),
                           AiMessage(next.answer)])
  {
    ResentRequest(q, heard, r);
    DeltaOfHeard(c.history, q, stored, heard, r);
    ExecutedSay(prompt, c, Say(UserRequest(r), model));
  }

  lemma ResentRequest(q: string, heard: string, r: string)
    requires q != "" && r != "" && heard != ""
    ensures Normalize(UserRequest(q) + [Reply(NonEmpty(heard))] + UserRequest(r))
         == [HumanMessage(q), AiMessage(heard), HumanMessage(r)]
  {
    var transcript := UserRequest(q) + [Reply(NonEmpty(heard))];
    NormalizedUser(q);
    NormalizedReply(UserRequest(q), heard);
    NormalizedUserAt(r, |transcript|);
    NormalizeSplit(transcript, UserRequest(r));
  }

  lemma DeltaOfHeard(history: seq<Message>, q: string, stored: string, heard: string, r: string)
    requires heard != stored && ProjectAll(history) == ProjectAll([HumanMessage(q), AiMessage(stored)])
    ensures Delta(history, [HumanMessage(q), AiMessage(heard), HumanMessage(r)]) == [AiMessage(heard), HumanMessage(r)]
  {
    var incoming := [HumanMessage(q), AiMessage(heard), HumanMessage(r)];
    assert |history| == |ProjectAll(history)| == 2;
    assert Project(history[0]) == ProjectAll(history)[0] == Project(HumanMessage(q));
    assert Project(history[1]) == ProjectAll(history)[1] == Project(AiMessage(stored));
    SecondDiffers(history, incoming);
    assert incoming[1..] == [AiMessage(heard), HumanMessage(r)];
  }

  lemma SecondDiffers(history: seq<Message>, incoming: seq<Message>)
    requires |history| == 2 && |incoming| == 3
    requires Project(history[0]) == Project(incoming[0]) && history[1].content != incoming[1].content
    ensures Delta(history, incoming) == incoming[1..]
  {
    assert ProjectAll(history)[..1] == [Project(history[0])] && ProjectAll(incoming)[..1] == [Project(incoming[0])];
    AgreesUpTo(history, incoming, 1);
  }

  /** A first turn that is answered and stored. */
  lemma FirstTurn(prompt: string, q: string, model: Model)
    requires q != ""
    ensures var turn := ChatTurn(prompt, model, [], UserRequest(q));
            && turn.executed
            && ProjectAll(turn.history)
               == ProjectAll([HumanMessage(q),
                              AiMessage(ChatAnswer(prompt, model, AddMessages([], [HumanMessage(q)])))])
  {
    NormalizedUser(q);
    ExecuteAppends(prompt, model, [], [HumanMessage(q)]);
  }

  /** The provider that answers "x" with a finish reason and "y" after it: the store
      keeps "xy", the streaming client hears "yx", and its next turn stores that as
      a second answer. */
  lemma ReorderedAnswerStoredToo(prompt: string, q: string, r: string, last: Model, px: string, py: string, s: Streamed)
    requires q != "" && r != "" && OneLinePayload(px) && OneLinePayload(py) && px != DONE && py != DONE
    requires s.env.lib.loads(px) == Some(OneChunk("x", JStr("stop")))
    requires s.env.lib.loads(py) == Some(OneChunk("y", JNull))
    requires s.lines == [DataLine(px), "", DataLine(py), ""]
    requires s.env.outcome == Answered(ChatTurn(prompt, SaysTwo("x", "y"), [], UserRequest(q)).content)
    requires Complete(s.env, ForwardedFrames(true, s.lines), s.schedule)
    ensures ChatTokens(prompt, SaysTwo("x", "y"), [], UserRequest(q)) == AnswerTokens(s.env.lib, LinePayloads(s.lines))
    ensures var first := HearStep(prompt, NEWCOMER, Say(UserRequest(q), SaysTwo("x", "y")), Heard(s));
            var next := StepClient(prompt, first, Say(UserRequest(r), last));
            && first.answer == "yx"
            && ProjectAll(next.history)
               == ProjectAll([HumanMessage(q), AiMessage("xy"), AiMessage("yx"), HumanMessage(r),
                              AiMessage(next.answer)])
  {
    TwoTokenTurn(prompt, q, "x", "y");
    assert "x" + "y" == "xy";
    HeardReordered(px, py, s);
    BothAreStored(prompt, q, "x", "y", "yx", r, last);
  }

  lemma HeardReordered(px: string, py: string, s: Streamed)
    requires OneLinePayload(px) && OneLinePayload(py) && px != DONE && py != DONE
    requires s.env.lib.loads(px) == Some(OneChunk("x", JStr("stop")))
    requires s.env.lib.loads(py) == Some(OneChunk("y", JNull))
    requires s.lines == [DataLine(px), "", DataLine(py), ""] && s.env.outcome == Answered(Some("xy"))
    requires Complete(s.env, ForwardedFrames(true, s.lines), s.schedule)
    ensures Heard(s) == "yx" && AnswerTokens(s.env.lib, LinePayloads(s.lines)) == ["x", "y"]
  {
    TwoChunkAnswer(s.env.lib, px, py, "x", "y", JStr("stop"));
    LateContentIsReordered(s.env, px, py, s.schedule);
  }

  lemma TwoTokenTurn(prompt: string, q: string, x: string, y: string)
    requires q != "" && x + y != ""
    ensures var turn := ChatTurn(prompt, SaysTwo(x, y), [], UserRequest(q));
            && turn.executed && turn.content == Some(x + y)
            && ProjectAll(turn.history) == ProjectAll([HumanMessage(q), AiMessage(x + y)])
    ensures ChatTokens(prompt, SaysTwo(x, y), [], UserRequest(q)) == [x, y]
  {
    NormalizedUser(q);
    FirstTurn(prompt, q, SaysTwo(x, y));
    TextOfTwo(x, y);
  }

  lemma BothAreStored(prompt: string, q: string, x: string, y: string, heard: string, r: string, last: Model)
    requires q != "" && r != "" && x + y != "" && heard != "" && heard != x + y
    ensures var first := HearStep(prompt, NEWCOMER, Say(UserRequest(q), SaysTwo(x, y)), heard);
            var next := StepClient(prompt, first, Say(UserRequest(r), last));
            && first.answer == heard
            && ProjectAll(next.history)
               == ProjectAll([HumanMessage(q), AiMessage(x + y), AiMessage(heard), HumanMessage(r),
                              AiMessage(next.answer)])
  {
    TwoTokenTurn(prompt, q, x, y);
    assert [] + UserRequest(q) == UserRequest(q);
    var first := HearStep(prompt, NEWCOMER, Say(UserRequest(q), SaysTwo(x, y)), heard);
    HeardOtherwise(prompt, first, q, x + y, heard, r, last);
  }
}
