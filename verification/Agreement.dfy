/** The streamed text against the text `run_once` returns, and against the answer
    that is stored. */
module Agreement {
  import opened Text
  import opened Json
  import opened Gateway
  import opened Streaming
  import opened Messages
  import opened History
  import opened Chat
  import opened Mock
  import opened Hitl
  import opened EndToEnd
  import opened Interrupts

  function ChunkText(o: Output): string {
    if o.Chunk? then ExtractStreamContent(o.json) else ""
  }

  /** The concatenated content deltas of a stream. */
  function DeltaText(out: seq<Output>): string {
    FlatMap(ChunkText, out)
  }

  predicate OnlyTokens(frames: seq<StreamFrame>) {
    forall i :: 0 <= i < |frames| ==> frames[i].Token?
  }

  lemma WrapperTexts(meta: Meta, content: string, reason: string, toolCalls: Json)
    ensures ChunkText(ContentChunk(meta, content)) == content
    ensures ChunkText(FinishChunk(meta, reason)) == ""
    ensures ChunkText(ToolCallsChunk(meta, toolCalls)) == ""
  {
    ChunkChoice(meta, map["content" := JStr(content)], JNull);
    ChunkChoice(meta, map[], JStr(reason));
    ChunkChoice(meta, map["tool_calls" := toolCalls], JNull);
    assert "content"[0] != "tool_calls"[0];
  }

  lemma {:induction false} BodyText(env: Env, frames: seq<StreamFrame>)
    requires OnlyTokens(frames)
    ensures DeltaText(Body(env, frames)) == FlatMap(FrameValue, frames)
  {
    if frames == [] {
    } else {
      BodyText(env, frames[1..]);
      WrapperTexts(env.meta, frames[0].value, "", JNull);
      FlatMapAppend(ChunkText, RenderFrame(env, frames[0]), Body(env, frames[1..]));
      FlatMapOne(ChunkText, ContentChunk(env.meta, frames[0].value));
    }
  }

  lemma {:induction false} TokensAreNotSse(env: Env, frames: seq<StreamFrame>)
    requires OnlyTokens(frames)
    ensures !Passthrough(frames) && Terminals(env, frames) == []
  {
    if frames == [] {
    } else {
      TokensAreNotSse(env, frames[1..]);
    }
  }

  lemma TailText(env: Env, passthrough: bool, count: nat)
    requires !passthrough && (env.outcome.Answered? || env.outcome.Interrupted?)
    ensures DeltaText(Tail(env, passthrough, [], count).0)
         == if env.outcome.Answered? && count == 0 then env.outcome.content.GetOr("") else ""
  {
    match env.outcome
    case Interrupted(toolCalls) =>
      WrapperTexts(env.meta, "", "tool_calls", toolCalls);
      DeltaTextOfThree(ToolCallsChunk(env.meta, toolCalls), FinishChunk(env.meta, "tool_calls"));
    case Answered(answer) =>
      var content := answer.GetOr("");
      WrapperTexts(env.meta, content, "stop", JNull);
      DeltaTextOfThree(ContentChunk(env.meta, content), FinishChunk(env.meta, "stop"));
      if count == 0 && content != "" {
        assert [ContentChunk(env.meta, content)] + [FinishChunk(env.meta, "stop"), Output.Done]
            == [ContentChunk(env.meta, content), FinishChunk(env.meta, "stop"), Output.Done];
      } else {
        assert [] + [FinishChunk(env.meta, "stop"), Output.Done] == [FinishChunk(env.meta, "stop"), Output.Done];
      }
    case _ =>
  }

  lemma DeltaTextOfThree(a: Output, b: Output)
    ensures DeltaText([a, b, Output.Done]) == ChunkText(a) + ChunkText(b)
    ensures DeltaText([b, Output.Done]) == ChunkText(b)
  {
    FlatMapOne(ChunkText, Output.Done);
    assert [b, Output.Done][1..] == [Output.Done];
    assert DeltaText([b, Output.Done]) == ChunkText(b) + "";
    assert [a, b, Output.Done][1..] == [b, Output.Done];
    assert DeltaText([a, b, Output.Done]) == ChunkText(a) + DeltaText([b, Output.Done]);
  }

  lemma {:induction false} TokenFramesShape(tokens: seq<string>)
    ensures OnlyTokens(TokenFrames(true, tokens))
    ensures TokenFrames(true, tokens) == [] <==> Flatten(tokens) == ""
  {
    if tokens == [] {
    } else {
      TokenFramesShape(tokens[1..]);
    }
  }

  /** The streamed text of a run whose node streams its tokens: the tokens' text,
      or the returned text when no token was emitted. */
  lemma StreamedText(env: Env, tokens: seq<string>, schedule: seq<Action>)
    requires env.outcome.Answered? || env.outcome.Interrupted?
    requires Complete(env, TokenFrames(true, tokens), schedule)
    ensures DeltaText(Yielded(env, TokenFrames(true, tokens), schedule))
         == if Flatten(tokens) == "" && env.outcome.Answered? then env.outcome.content.GetOr("") else Flatten(tokens)
  {
    var frames := TokenFrames(true, tokens);
    CompleteRun(env, frames, schedule);
    TokenFramesShape(tokens);
    TokensAreNotSse(env, frames);
    BodyText(env, frames);
    FramesKeepText(tokens);
    FlatMapAppend(ChunkText, Body(env, frames), TailOf(env, frames).0);
    TailText(env, Passthrough(frames), |frames|);
  }

  /** The tokens a chat request streams: none when the history answers it. */
  function ChatTokens(prompt: string, model: Model, history: seq<Message>, request: seq<ReqMessage>): seq<string> {
    if ChatTurn(prompt, model, history, request).executed
    then model(Upstream(prompt, AddMessages(history, Delta(history, Normalize(request)))))
    else []
  }

  /** For a provider that streams tokens, such as the mock, the deltas of a chat
      stream concatenate to the content `run_once` returns for the same request,
      cached answers included. */
  lemma ChatStreamAgrees(env: Env, prompt: string, model: Model, history: seq<Message>,
                         request: seq<ReqMessage>, schedule: seq<Action>)
    requires env.outcome == Answered(ChatTurn(prompt, model, history, request).content)
    requires Complete(env, TokenFrames(true, ChatTokens(prompt, model, history, request)), schedule)
    ensures DeltaText(Yielded(env, TokenFrames(true, ChatTokens(prompt, model, history, request)), schedule))
         == ChatTurn(prompt, model, history, request).content.GetOr("")
  {
    StreamedText(env, ChatTokens(prompt, model, history, request), schedule);
  }

  /** What `stream` sees of a request to the draft workflow. */
  function HitlOutcome(response: Response, toolCalls: Json): Outcome {
    match response
    case ToolCalls(_) => Interrupted(toolCalls)
    case Final(content) => Answered(content)
  }

  function HitlTokens(r: HitlRequest): seq<string> {
    if ReviewIn(r.messages).Some? then [] else DraftTokens(r.prefix, r.model, r.messages)
  }

  /** For a provider that streams tokens, a first request streams the draft under
      review; for every provider, a resume streams the final text. */
  lemma HitlStreamAgrees(env: Env, state: ThreadState, r: HitlRequest, toolCalls: Json, schedule: seq<Action>)
    requires Accepts(state, r)
    requires env.outcome == HitlOutcome(HitlTurn(state, r).1, toolCalls)
    requires Complete(env, TokenFrames(true, HitlTokens(r)), schedule)
    ensures var response := HitlTurn(state, r).1;
            DeltaText(Yielded(env, TokenFrames(true, HitlTokens(r)), schedule))
            == if response.ToolCalls? then response.draft else response.content.GetOr("")
    ensures HitlTurn(state, r).1.ToolCalls? ==>
      var out := Yielded(env, TokenFrames(true, HitlTokens(r)), schedule);
      |out| >= 3 && out[|out| - 3] == ToolCallsChunk(env.meta, toolCalls)
  {
    StreamedText(env, HitlTokens(r), schedule);
    if env.outcome.Interrupted? {
      ToolCallsAtEnd(env, TokenFrames(true, HitlTokens(r)), schedule);
    }
  }

  /** An interrupted run sends the tool calls before finish reason and `[DONE]`. */
  lemma ToolCallsAtEnd(env: Env, frames: seq<StreamFrame>, schedule: seq<Action>)
    requires env.outcome.Interrupted? && Complete(env, frames, schedule)
    ensures var out := Yielded(env, frames, schedule);
            |out| >= 3 && out[|out| - 3] == ToolCallsChunk(env.meta, env.outcome.toolCalls)
  {
    CompleteRun(env, frames, schedule);
  }

  /** For a provider whose events are forwarded, the client of a first request
      decodes the text of the events that are not terminal; it is the draft under
      review exactly when no terminal event carries content. */
  lemma HitlPassthroughIff(env: Env, state: ThreadState, r: HitlRequest, toolCalls: Json,
                           lines: seq<string>, schedule: seq<Action>)
    requires ReviewIn(r.messages).None? && env.outcome == HitlOutcome(HitlTurn(state, r).1, toolCalls)
    requires StreamError(env.lib, LinePayloads(lines)).None?
    requires DraftTokens(r.prefix, r.model, r.messages) == AnswerTokens(env.lib, LinePayloads(lines))
    requires Complete(env, ForwardedFrames(true, lines), schedule)
    ensures var decoded := DecodedText(env, Yielded(env, ForwardedFrames(true, lines), schedule));
            && decoded == TextOfEvents(env.lib, EarlyEvents(env.lib, lines))
            && (decoded == HitlTurn(state, r).1.draft
                <==> NoLateText(env.lib, Late(env.lib), SentEvents(lines)))
  {
    InterruptedTextIff(env, lines, schedule);
  }

  /** A summary streams the content `run_once` returns, which is the joined
      answer. */
  lemma SummaryStreamAgrees(env: Env, prefix: string, suffix: string, model: Model,
                            request: seq<ReqMessage>, schedule: seq<Action>)
    requires env.outcome == Answered(SummaryTurn(prefix, suffix, model, request))
    requires Complete(env, TokenFrames(true, SummaryTokens(prefix, suffix, model, request)), schedule)
    ensures var frames := TokenFrames(true, SummaryTokens(prefix, suffix, model, request));
            var text := DeltaText(Yielded(env, frames, schedule));
            && text == SummaryTurn(prefix, suffix, model, request).GetOr("")
            && text == Flatten(SummaryTokens(prefix, suffix, model, request))
  {
    ResultOfOne(Flatten(SummaryTokens(prefix, suffix, model, request)));
    StreamedText(env, SummaryTokens(prefix, suffix, model, request), schedule);
  }

  /** So does, under the order condition, a summary of a provider whose events
      are forwarded. */
  lemma SummaryPassthroughAgrees(env: Env, prefix: string, suffix: string, model: Model, request: seq<ReqMessage>,
                                 lines: seq<string>, schedule: seq<Action>)
    requires StreamError(env.lib, LinePayloads(lines)).None? && InOrder(env.lib, SentEvents(lines))
    requires SummaryTokens(prefix, suffix, model, request) == AnswerTokens(env.lib, LinePayloads(lines))
    requires env.outcome == Answered(SummaryTurn(prefix, suffix, model, request))
    requires Complete(env, ForwardedFrames(true, lines), schedule)
    ensures DecodedText(env, Yielded(env, ForwardedFrames(true, lines), schedule))
         == SummaryTurn(prefix, suffix, model, request).GetOr("")
  {
    var answer := Flatten(AnswerTokens(env.lib, LinePayloads(lines)));
    ResultOfOne(answer);
    PassthroughMeansAnswer(env, lines, answer, schedule);
  }

  /** Whatever the schedule, a passthrough client decodes exactly the assistant
      message that the turn has stored. */
  lemma ClientDecodesStoredAnswer(env: Env, prompt: string, model: Model, history: seq<Message>,
                                  request: seq<ReqMessage>, lines: seq<string>, schedule: seq<Action>)
    requires StreamError(env.lib, LinePayloads(lines)).None? && InOrder(env.lib, SentEvents(lines))
    requires ChatTurn(prompt, model, history, request).executed
    requires ChatTokens(prompt, model, history, request) == AnswerTokens(env.lib, LinePayloads(lines))
    requires env.outcome == Answered(ChatTurn(prompt, model, history, request).content)
    requires Complete(env, ForwardedFrames(true, lines), schedule)
    ensures var stored := ChatTurn(prompt, model, history, request).history;
            && stored != []
            && Project(stored[|stored| - 1])
               == Project(AiMessage(DecodedText(env, Yielded(env, ForwardedFrames(true, lines), schedule))))
  {
    PassthroughMeansAnswer(env, lines, Flatten(AnswerTokens(env.lib, LinePayloads(lines))), schedule);
  }
}
