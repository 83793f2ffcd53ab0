/** Which upstream events the runtime holds back, told on the lines of the event,
    and what becomes of them in every run. */
module Classifier {
  import opened Text
  import opened TextMeaning
  import opened Json
  import opened Gateway
  import opened Streaming

  // -------------------------------------------------------------- the classifier

  /** A chunk whose first choice has a finish reason. */
  ghost predicate Finishes(chunk: Json) {
    && chunk.JObj? && "choices" in chunk.fields && chunk.fields["choices"].JArr?
    && var choices := chunk.fields["choices"].items;
       && choices != [] && choices[0].JObj?
       && "finish_reason" in choices[0].fields && choices[0].fields["finish_reason"] != JNull
  }

  /** What the text after "data:" must be for the event to be terminal. */
  ghost predicate EndsAnswer(lib: Lib, rest: string) {
    || Strip(rest) == "[DONE]"
    || (!Blank(rest) && lib.loads(Strip(rest)).Some? && Finishes(lib.loads(Strip(rest)).value))
  }

  ghost predicate NoData(lines: seq<string>) {
    forall i :: 0 <= i < |lines| ==> !("data:" <= lines[i])
  }

  lemma {:induction false} FirstDataAfter(pre: seq<string>, tail: seq<string>)
    requires NoData(pre)
    ensures FirstDataLine(pre + tail) == FirstDataLine(tail)
  {
    if pre == [] {
      assert pre + tail == tail;
    } else {
      assert (pre + tail)[0] == pre[0] && (pre + tail)[1..] == pre[1..] + tail;
      FirstDataAfter(pre[1..], tail);
    }
  }

  lemma LinesOfEvent(group: seq<string>)
    requires CleanGroup(group)
    ensures SplitLines(EventText(group)) == group + [""]
  {
    SplitEventText(group, "");
    assert EventText(group) + "" == EventText(group);
    assert group + [""] + [] == group + [""];
  }

  /** An event is judged by its first line that begins with "data:", whatever lines
      come before it. */
  lemma ClassifierMeaning(lib: Lib, pre: seq<string>, rest: string, post: seq<string>)
    requires NoData(pre) && CleanGroup(pre + ["data:" + rest] + post)
    ensures IsTerminalSseEvent(lib, EventText(pre + ["data:" + rest] + post)) <==> EndsAnswer(lib, rest)
  {
    FirstPayloadOf(pre, rest, post);
    StripEmptyIff(rest);
    TerminalMeaning(lib, rest);
  }

  lemma AroundLine<T>(a: seq<T>, b: seq<T>, c: seq<T>, d: seq<T>)
    ensures a + b + c + d == a + (b + (c + d))
  {
  }

  lemma FirstPayloadOf(pre: seq<string>, rest: string, post: seq<string>)
    requires NoData(pre) && CleanGroup(pre + ["data:" + rest] + post)
    ensures SseDataPayload(EventText(pre + ["data:" + rest] + post)) == Some(Strip(rest))
  {
    var line, group := "data:" + rest, pre + ["data:" + rest] + post;
    LinesOfEvent(group);
    AroundLine(pre, [line], post, [""]);
    FirstDataAfter(pre, [line] + (post + [""]));
    assert line[5..] == rest;
  }

  lemma TerminalMeaning(lib: Lib, rest: string)
    ensures lib.loads(Strip(rest)).Some? ==>
      (TerminalChunk(lib.loads(Strip(rest)).value) <==> Finishes(lib.loads(Strip(rest)).value))
  {
  }

  /** An event without such a line is never held back. */
  lemma NoDataNotTerminal(lib: Lib, group: seq<string>)
    requires NoData(group) && CleanGroup(group)
    ensures !IsTerminalSseEvent(lib, EventText(group))
  {
    LinesOfEvent(group);
    FirstDataAfter(group, [""]);
    assert [""][1..] == [];
  }

  // ---------------------------------------------------------------- in every run

  lemma {:induction false} TerminalIsPending(env: Env, frames: seq<StreamFrame>, event: string)
    requires Sse(event) in frames && IsTerminalSseEvent(env.lib, event)
    ensures Raw(event) in Terminals(env, frames)
  {
    if frames[0] == Sse(event) {
      assert Terminals(env, frames) == [Raw(event)] + Terminals(env, frames[1..]);
    } else {
      TerminalIsPending(env, frames[1..], event);
    }
  }

  lemma {:induction false} OthersAreForwarded(env: Env, frames: seq<StreamFrame>, event: string)
    requires Sse(event) in frames && !IsTerminalSseEvent(env.lib, event)
    ensures Raw(event) in Body(env, frames)
  {
    if frames[0] == Sse(event) {
      assert Body(env, frames) == [Raw(event)] + Body(env, frames[1..]);
    } else {
      OthersAreForwarded(env, frames[1..], event);
    }
  }

  lemma NotInBody(env: Env, frames: seq<StreamFrame>, event: string)
    requires IsTerminalSseEvent(env.lib, event)
    ensures Raw(event) !in Body(env, frames)
  {
    BodyNotTerminal(env, frames);
    var body := Body(env, frames);
    assert forall i :: 0 <= i < |body| ==> !IsTerminal(env.lib, body[i]);
  }

  /** An event that ends the answer is sent in no run while frames are still taken.
      A run that ends has sent it, after everything that is not terminal, exactly
      when the run was answered, or failed with an HTTP error; any other run drops
      it. */
  lemma EndingEventIsHeldBack(env: Env, frames: seq<StreamFrame>, pre: seq<string>, rest: string, post: seq<string>,
                              schedule: seq<Action>)
    requires NoData(pre) && CleanGroup(pre + ["data:" + rest] + post) && EndsAnswer(env.lib, rest)
    requires Sse(EventText(pre + ["data:" + rest] + post)) in frames && Legal(env, Start(frames), schedule)
    ensures var event := EventText(pre + ["data:" + rest] + post);
            var s := Run(env, Start(frames), schedule);
            && (s.phase.Polling? || s.phase.Waiting? ==> Raw(event) !in s.out)
            && (s.phase.Ended? ==> (Raw(event) in s.out <==> env.outcome.Answered? || env.outcome.HttpFailed?))
            && (forall i, j :: 0 <= i < j < |s.out| && s.out[i] == Raw(event) ==> IsTerminal(env.lib, s.out[j]))
  {
    var event := EventText(pre + ["data:" + rest] + post);
    var s := Run(env, Start(frames), schedule);
    ClassifierMeaning(env.lib, pre, rest, post);
    StartInv(env, frames);
    RunKeepsInv(env, frames, Start(frames), schedule);
    NotInBody(env, frames[..s.count], event);
    NotInBody(env, frames, event);
    TerminalIsPending(env, frames, event);
    TerminalLastInEveryRun(env, frames, schedule);
    assert frames[..|frames|] == frames;
    PassthroughSeen(frames, Sse(event));
    if s.phase.Ended? {
      InExpected(env, frames, Raw(event));
    }
    forall i, j | 0 <= i < j < |s.out| && s.out[i] == Raw(event) ensures IsTerminal(env.lib, s.out[j]) {
      assert IsTerminal(env.lib, s.out[i]);
    }
  }

  lemma PassthroughSeen(frames: seq<StreamFrame>, frame: StreamFrame)
    requires frame in frames && frame.Sse?
    ensures Passthrough(frames)
  {
  }

  lemma InExpected(env: Env, frames: seq<StreamFrame>, o: Output)
    requires o.Raw? && Passthrough(frames)
    ensures o in Expected(env, frames)
       <==> o in Body(env, frames)
            || ((env.outcome.Answered? || env.outcome.HttpFailed?) && o in Terminals(env, frames))
  {
    var body, tail := Body(env, frames), TailOf(env, frames).0;
    assert o in body + tail <==> o in body || o in tail;
  }

  /** Any other event is sent when its frame is taken. */
  lemma OtherEventIsForwarded(env: Env, frames: seq<StreamFrame>, pre: seq<string>, rest: string, post: seq<string>,
                              schedule: seq<Action>)
    requires NoData(pre) && CleanGroup(pre + ["data:" + rest] + post) && !EndsAnswer(env.lib, rest)
    requires Legal(env, Start(frames), schedule) && Run(env, Start(frames), schedule).count <= |frames|
    ensures var event := EventText(pre + ["data:" + rest] + post);
            var s := Run(env, Start(frames), schedule);
            Sse(event) in frames[..s.count] && !s.phase.Yielding? ==> Raw(event) in s.out
  {
    ClassifierMeaning(env.lib, pre, rest, post);
    TakenIsForwarded(env, frames, EventText(pre + ["data:" + rest] + post), schedule);
  }

  lemma TakenIsForwarded(env: Env, frames: seq<StreamFrame>, event: string, schedule: seq<Action>)
    requires !IsTerminalSseEvent(env.lib, event)
    requires Legal(env, Start(frames), schedule) && Run(env, Start(frames), schedule).count <= |frames|
    ensures var s := Run(env, Start(frames), schedule);
            Sse(event) in frames[..s.count] && !s.phase.Yielding? ==> Raw(event) in s.out
  {
    var s := Run(env, Start(frames), schedule);
    StartInv(env, frames);
    RunKeepsInv(env, frames, Start(frames), schedule);
    if Sse(event) in frames[..s.count] {
      OthersAreForwarded(env, frames[..s.count], event);
      assert s.phase.Ended? ==> Raw(event) in Body(env, frames) + TailOf(env, frames).0;
    }
  }

  // ------------------------------------------------------------ the wrapper's chunks

  /** A chunk with the ids of the stream, and one choice. */
  ghost predicate IsChunkOf(meta: Meta, chunk: Json, delta: map<string, Json>, reason: Json) {
    var choice := JObj(map["index" := JInt(0), "delta" := JObj(delta), "finish_reason" := reason]);
    && chunk.JObj?
    && chunk.fields.Keys == {"id", "object", "created", "model", "choices", "session_id", "user_id"}
    && chunk.fields["id"] == JStr(meta.completionId) && chunk.fields["object"] == JStr("chat.completion.chunk")
    && chunk.fields["created"] == JInt(meta.created) && chunk.fields["model"] == JStr(meta.workflow)
    && chunk.fields["session_id"] == JStr(meta.sessionId)
    && chunk.fields["user_id"] == (if meta.userId.None? then JNull else JStr(meta.userId.value))
    && chunk.fields["choices"] == JArr([choice])
  }

  lemma DistinctKeys()
    ensures "id" != "object" && "id" != "created" && "id" != "model" && "id" != "choices" && "id" != "session_id"
    ensures "id" != "user_id" && "object" != "created" && "object" != "model" && "object" != "choices"
    ensures "object" != "session_id" && "object" != "user_id" && "created" != "model" && "created" != "choices"
    ensures "created" != "session_id" && "created" != "user_id" && "model" != "choices" && "model" != "session_id"
    ensures "model" != "user_id" && "choices" != "session_id" && "choices" != "user_id" && "session_id" != "user_id"
  {
    assert |"id"| == 2 && |"object"| == 6 && |"created"| == 7 && |"model"| == 5 && |"choices"| == 7;
    assert |"session_id"| == 10 && |"user_id"| == 7;
    assert "created"[1] == 'r' && "choices"[1] == 'h' && "user_id"[1] == 's';
  }

  lemma ChunkFields(meta: Meta, delta: map<string, Json>, reason: Json)
    ensures IsChunkOf(meta, ChunkJson(meta, delta, reason), delta, reason)
  {
    DistinctKeys();
  }

  /** Content, tool calls, or the finish reason. */
  ghost predicate OwnChunk(env: Env, chunk: Json) {
    || (exists text :: IsChunkOf(env.meta, chunk, map["content" := JStr(text)], JNull))
    || (env.outcome.Interrupted? && IsChunkOf(env.meta, chunk, map["tool_calls" := env.outcome.toolCalls], JNull))
    || IsChunkOf(env.meta, chunk, map[], JStr(if env.outcome.Interrupted? then "tool_calls" else "stop"))
  }

  /** A token frame becomes a chunk with that content; the tails are made of the
      tool calls, the finish reason, and the content returned. */
  lemma WrapperChunks(env: Env, text: string)
    ensures RenderFrame(env, Token(text)) == [ContentChunk(env.meta, text)]
    ensures ContentChunk(env.meta, text).Chunk?
         && IsChunkOf(env.meta, ContentChunk(env.meta, text).json, map["content" := JStr(text)], JNull)
    ensures env.outcome.Interrupted? ==>
      var tail := Tail(env, true, [], 0).0;
      && |tail| == 3 && tail[0].Chunk? && tail[1].Chunk? && tail[2] == Done
      && IsChunkOf(env.meta, tail[0].json, map["tool_calls" := env.outcome.toolCalls], JNull)
      && IsChunkOf(env.meta, tail[1].json, map[], JStr("tool_calls"))
    ensures env.outcome.Answered? ==>
      var tail := Tail(env, false, [], 1).0;
      && |tail| == 2 && tail[0].Chunk? && tail[1] == Done && IsChunkOf(env.meta, tail[0].json, map[], JStr("stop"))
  {
    ChunkFields(env.meta, map["content" := JStr(text)], JNull);
    ChunkFields(env.meta, map[], JStr("stop"));
    ChunkFields(env.meta, map[], JStr("tool_calls"));
    if env.outcome.Interrupted? {
      ChunkFields(env.meta, map["tool_calls" := env.outcome.toolCalls], JNull);
    }
  }

  lemma {:induction false} BodyChunks(env: Env, frames: seq<StreamFrame>, chunk: Json)
    requires Chunk(chunk) in Body(env, frames)
    ensures OwnChunk(env, chunk)
  {
    if Chunk(chunk) in RenderFrame(env, frames[0]) {
      WrapperChunks(env, frames[0].value);
    } else {
      BodyChunks(env, frames[1..], chunk);
    }
  }

  lemma TailChunks(env: Env, frames: seq<StreamFrame>, chunk: Json)
    requires Chunk(chunk) in TailOf(env, frames).0
    ensures OwnChunk(env, chunk)
  {
    TerminalsTerminal(env, frames);
    match env.outcome
    case Answered(answer) =>
      WrapperChunks(env, answer.GetOr(""));
    case _ =>
      WrapperChunks(env, "");
  }

  /** In every run, each chunk of the wrapper carries the ids of the stream, and
      has one choice with content, the tool calls, or the finish reason. */
  lemma EveryChunkIsOurs(env: Env, frames: seq<StreamFrame>, schedule: seq<Action>, chunk: Json)
    requires Legal(env, Start(frames), schedule) && Chunk(chunk) in Yielded(env, frames, schedule)
    ensures OwnChunk(env, chunk)
  {
    ScheduleIndependence(env, frames, schedule);
    var body, tail := Body(env, frames), TailOf(env, frames).0;
    var i :| 0 <= i < |Yielded(env, frames, schedule)| && Yielded(env, frames, schedule)[i] == Chunk(chunk);
    assert Expected(env, frames)[i] == Chunk(chunk);
    if i < |body| {
      assert body[i] == Chunk(chunk);
      BodyChunks(env, frames, chunk);
    } else {
      assert tail[i - |body|] == Chunk(chunk);
      TailChunks(env, frames, chunk);
    }
  }

  lemma {:induction false} TokenBody(env: Env, frames: seq<StreamFrame>)
    requires forall i :: 0 <= i < |frames| ==> frames[i].Token?
    ensures |Body(env, frames)| == |frames|
    ensures forall i :: 0 <= i < |frames| ==> Body(env, frames)[i] == ContentChunk(env.meta, frames[i].value)
  {
    if frames == [] {
    } else {
      TokenBody(env, frames[1..]);
      assert Body(env, frames) == [ContentChunk(env.meta, frames[0].value)] + Body(env, frames[1..]);
    }
  }

  /** The whole output of an answered run on tokens: one content chunk for each, the
      returned content instead when there was none, the finish reason, `[DONE]`. */
  lemma AnsweredTokenRun(env: Env, frames: seq<StreamFrame>, schedule: seq<Action>)
    requires env.outcome.Answered? && forall i :: 0 <= i < |frames| ==> frames[i].Token?
    requires Complete(env, frames, schedule)
    ensures var out, content := Yielded(env, frames, schedule), env.outcome.content.GetOr("");
            var texts := if frames == [] && content != "" then [content] else Map(FrameValue, frames);
            var n := |texts|;
            && |out| == n + 2
            && (forall i :: 0 <= i < n ==>
                  out[i].Chunk? && IsChunkOf(env.meta, out[i].json, map["content" := JStr(texts[i])], JNull))
            && out[n].Chunk? && IsChunkOf(env.meta, out[n].json, map[], JStr("stop")) && out[n + 1] == Done
  {
    CompleteRun(env, frames, schedule);
    TokenBody(env, frames);
    WrapperChunks(env, env.outcome.content.GetOr(""));
    forall i | 0 <= i < |frames|
      ensures var text := frames[i].value;
              IsChunkOf(env.meta, ContentChunk(env.meta, text).json, map["content" := JStr(text)], JNull)
    {
      WrapperChunks(env, frames[i].value);
    }
    assert !Passthrough(frames);
  }
}
