/** `WorkflowRuntime.stream`: the graph run puts frames on an unbounded queue
    while the consumer polls the queue, forwards frames, holds terminal events
    back, and ends with one of several tails. Code between two `await`s is one
    atomic action; every interleaving of the actions is allowed. */
module Streaming {
  import opened Text
  import opened Json
  import opened Gateway

  /** How the graph run ends, as the consumer sees it. */
  datatype Outcome =
    | Interrupted(toolCalls: Json)
    | Answered(content: Option<string>)
    | HttpFailed(error: HttpError)
    | Failed

  datatype Meta = Meta(completionId: string, created: int, workflow: string, sessionId: string, userId: Option<string>)

  /** What a stream was started with, and the libraries it calls. */
  datatype Env = Env(lib: Lib, meta: Meta, outcome: Outcome)

  /** One yielded item: an upstream event as it came, a chunk of the wrapper's
      own (before printing), or the wrapper's `[DONE]`. */
  datatype Output = Raw(event: string) | Chunk(json: Json) | Done

  function RawOutput(event: string): Output { Raw(event) }

  datatype Ending = Completed | RaisedHttp(error: HttpError) | RaisedOther

  // ------------------------------------------------------- reading an event

  function FirstDataLine(lines: seq<string>): Option<string> {
    if lines == [] then None
    else if StartsWith(lines[0], "data:") then Some(Strip(lines[0][5..]))
    else FirstDataLine(lines[1..])
  }

  function SseDataPayload(event: string): Option<string> {
    FirstDataLine(SplitLines(event))
  }

  predicate TerminalChunk(chunk: Json) {
    && chunk.JObj?
    && chunk.Get("choices").JArr?
    && chunk.Get("choices").items != []
    && chunk.Get("choices").items[0].JObj?
    && !chunk.Get("choices").items[0].Get("finish_reason").JNull?
  }

  predicate IsTerminalSseEvent(lib: Lib, event: string) {
    match SseDataPayload(event)
    case None => false
    case Some(payload) =>
      payload == DONE
      || (payload != "" && lib.loads(payload).Some? && TerminalChunk(lib.loads(payload).value))
  }

  // ---------------------------------------------------- the wrapper's chunks

  function ChunkJson(meta: Meta, delta: map<string, Json>, finishReason: Json): Json {
    JObj(map[
      "id" := JStr(meta.completionId),
      "object" := JStr("chat.completion.chunk"),
      "created" := JInt(meta.created),
      "model" := JStr(meta.workflow),
      "choices" := JArr([JObj(map["index" := JInt(0), "delta" := JObj(delta), "finish_reason" := finishReason])]),
      "session_id" := JStr(meta.sessionId),
      "user_id" := UserJson(meta.userId)])
  }

  function UserJson(userId: Option<string>): Json {
    match userId case None => JNull case Some(id) => JStr(id)
  }

  /** `RuntimeEvent.to_chunk`: the finish reason is null. */
  function EventChunk(meta: Meta, delta: map<string, Json>): Output {
    Chunk(ChunkJson(meta, delta, JNull))
  }

  function ContentChunk(meta: Meta, content: string): Output {
    EventChunk(meta, map["content" := JStr(content)])
  }

  function FinishChunk(meta: Meta, reason: string): Output {
    Chunk(ChunkJson(meta, map[], JStr(reason)))
  }

  function ToolCallsChunk(meta: Meta, toolCalls: Json): Output {
    EventChunk(meta, map["tool_calls" := toolCalls])
  }

  lemma ChunkChoice(meta: Meta, delta: map<string, Json>, finishReason: Json)
    ensures var chunk := ChunkJson(meta, delta, finishReason);
            && chunk.Get("choices").JArr? && |chunk.Get("choices").items| == 1
            && var first := chunk.Get("choices").items[0];
               first.JObj? && first.Get("delta") == JObj(delta)
               && first.Get("finish_reason") == finishReason && first.Get("text") == JNull
  {
    assert "choices"[0] != "user_id"[0] && "choices"[0] != "session_id"[0];
    assert "delta"[0] != "finish_reason"[0] && "delta"[0] != "index"[0];
    assert "text"[0] != "finish_reason"[0] && "text"[0] != "index"[0] && "text"[0] != "delta"[0];
  }

  predicate IsTerminal(lib: Lib, o: Output) {
    match o
    case Raw(event) => IsTerminalSseEvent(lib, event)
    case Chunk(json) => TerminalChunk(json)
    case Done => true
  }

  /** An output at which a reader of all `data:` payloads stops. */
  predicate EndsStream(o: Output) {
    match o
    case Raw(event) => DONE in PayloadsOfText(event)
    case Chunk(_) => false
    case Done => true
  }

  // ------------------------------------------------- the sequential reference

  function RenderFrame(env: Env, frame: StreamFrame): seq<Output> {
    match frame
    case Token(value) => [ContentChunk(env.meta, value)]
    case Sse(event) => if IsTerminalSseEvent(env.lib, event) then [] else [Raw(event)]
  }

  function TerminalOf(env: Env, frame: StreamFrame): seq<Output> {
    if frame.Sse? && IsTerminalSseEvent(env.lib, frame.value) then [Raw(frame.value)] else []
  }

  /** What is yielded while frames arrive. */
  function Body(env: Env, frames: seq<StreamFrame>): seq<Output> {
    FlatMap(f => RenderFrame(env, f), frames)
  }

  /** The terminal events among frames, held back. */
  function Terminals(env: Env, frames: seq<StreamFrame>): seq<Output> {
    FlatMap(f => TerminalOf(env, f), frames)
  }

  predicate Passthrough(frames: seq<StreamFrame>) {
    exists i :: 0 <= i < |frames| && frames[i].Sse?
  }

  function CharCount(frames: seq<StreamFrame>): nat {
    |FlatMap(FrameValue, frames)|
  }

  /** The outputs after the last frame, and how the generator ends. */
  function Tail(env: Env, passthrough: bool, pending: seq<Output>, count: nat): (seq<Output>, Ending) {
    match env.outcome
    case HttpFailed(e) => if passthrough then (pending, Completed) else ([], RaisedHttp(e))
    case Failed => ([], RaisedOther)
    case Interrupted(toolCalls) =>
      ([ToolCallsChunk(env.meta, toolCalls), FinishChunk(env.meta, "tool_calls"), Done], Completed)
    case Answered(answer) =>
      if passthrough then (pending, Completed)
      else
        var content := answer.GetOr("");
        var fallback := if count == 0 && content != "" then [ContentChunk(env.meta, content)] else [];
        (fallback + [FinishChunk(env.meta, "stop"), Done], Completed)
  }

  function TailOf(env: Env, frames: seq<StreamFrame>): (seq<Output>, Ending) {
    Tail(env, Passthrough(frames), Terminals(env, frames), |frames|)
  }

  /** The whole output as a function of the frames and the outcome alone. */
  function Expected(env: Env, frames: seq<StreamFrame>): seq<Output> {
    Body(env, frames) + TailOf(env, frames).0
  }

  // -------------------------------------------------------- the two processes

  datatype Phase =
    | Polling                                        // at the top of the loop
    | Waiting                                        // inside `wait_for(queue.get())`
    | Yielding(rest: seq<Output>, ending: Ending)    // past the loop
    | Ended(ending: Ending)

  datatype State = State(
    toPut: seq<StreamFrame>,      // producer: frames not yet put
    taskDone: bool,
    queue: seq<StreamFrame>,
    phase: Phase,
    passthrough: bool,
    pending: seq<Output>,         // pending_terminal_events
    count: nat,                   // streamed_chunk_count
    chars: nat,                   // streamed_char_count
    out: seq<Output>)             // yielded so far

  datatype Action = Put | FinishTask | CheckDone | GetFrame | PollTimeout | Yield

  function Start(frames: seq<StreamFrame>): State {
    State(frames, false, [], Polling, false, [], 0, 0, [])
  }

  predicate Enabled(s: State, a: Action) {
    match a
    case Put => s.toPut != []
    case FinishTask => s.toPut == [] && !s.taskDone
    case CheckDone => s.phase.Polling?
    case GetFrame => s.phase.Waiting? && s.queue != []
    case PollTimeout => s.phase.Waiting?
    case Yield => s.phase.Yielding?
  }

  function Apply(env: Env, s: State, a: Action): State
    requires Enabled(s, a)
  {
    match a
    case Put => s.(toPut := s.toPut[1..], queue := s.queue + [s.toPut[0]])
    case FinishTask => s.(taskDone := true)
    case CheckDone =>
      if s.taskDone && s.queue == [] then
        var tail := Tail(env, s.passthrough, s.pending, s.count);
        s.(phase := Yielding(tail.0, tail.1))
      else s.(phase := Waiting)
    case GetFrame =>
      var f := s.queue[0];
      s.(phase := Polling,
         queue := s.queue[1..],
         count := s.count + 1,
         chars := s.chars + |f.value|,
         passthrough := s.passthrough || f.Sse?,
         pending := s.pending + TerminalOf(env, f),
         out := s.out + RenderFrame(env, f))
    case PollTimeout => s.(phase := Polling)
    case Yield =>
      if s.phase.rest == [] then s.(phase := Ended(s.phase.ending))
      else s.(phase := s.phase.(rest := s.phase.rest[1..]), out := s.out + [s.phase.rest[0]])
  }

  /** A schedule is a list of actions, each enabled when it is taken. */
  predicate Legal(env: Env, s: State, schedule: seq<Action>)
    decreases |schedule|
  {
    schedule == [] || (Enabled(s, schedule[0]) && Legal(env, Apply(env, s, schedule[0]), schedule[1..]))
  }

  function Run(env: Env, s: State, schedule: seq<Action>): State
    requires Legal(env, s, schedule)
    decreases |schedule|
  {
    if schedule == [] then s else Run(env, Apply(env, s, schedule[0]), schedule[1..])
  }

  /** A schedule under which the stream comes to its end. */
  predicate Complete(env: Env, frames: seq<StreamFrame>, schedule: seq<Action>) {
    Legal(env, Start(frames), schedule) && Run(env, Start(frames), schedule).phase.Ended?
  }

  /** What the client is sent under a schedule. */
  function Yielded(env: Env, frames: seq<StreamFrame>, schedule: seq<Action>): seq<Output>
    requires Legal(env, Start(frames), schedule)
  {
    Run(env, Start(frames), schedule).out
  }

  // ------------------------------------------------- scheduling independence

  /** What every reachable state keeps: the frames consumed so far determine
      everything the consumer has done. */
  ghost predicate Inv(env: Env, frames: seq<StreamFrame>, s: State) {
    && s.count <= |frames|
    && s.queue + s.toPut == frames[s.count..]
    && (s.taskDone ==> s.toPut == [])
    && var taken := frames[..s.count];
       && s.passthrough == Passthrough(taken)
       && s.pending == Terminals(env, taken)
       && s.chars == CharCount(taken)
       && match s.phase
          case Polling => s.out == Body(env, taken)
          case Waiting => s.out == Body(env, taken)
          case Yielding(rest, ending) =>
            && taken == frames && s.taskDone
            && s.out + rest == Expected(env, frames) && ending == TailOf(env, frames).1
          case Ended(ending) =>
            && taken == frames && s.taskDone
            && s.out == Expected(env, frames) && ending == TailOf(env, frames).1
  }

  lemma StartInv(env: Env, frames: seq<StreamFrame>)
    ensures Inv(env, frames, Start(frames))
  {
    assert frames[..0] == [] && frames[0..] == frames;
  }

  lemma TakeOne(env: Env, frames: seq<StreamFrame>, k: nat)
    requires k < |frames|
    ensures var taken, f := frames[..k], frames[k];
            && Body(env, frames[..k + 1]) == Body(env, taken) + RenderFrame(env, f)
            && Terminals(env, frames[..k + 1]) == Terminals(env, taken) + TerminalOf(env, f)
            && CharCount(frames[..k + 1]) == CharCount(taken) + |f.value|
            && (Passthrough(frames[..k + 1]) <==> Passthrough(taken) || f.Sse?)
  {
    var taken, f := frames[..k], frames[k];
    assert frames[..k + 1] == taken + [f];
    FlatMapSnoc(f => RenderFrame(env, f), taken, f);
    FlatMapSnoc(f => TerminalOf(env, f), taken, f);
    FlatMapSnoc(FrameValue, taken, f);
    if Passthrough(taken) {
      var i :| 0 <= i < k && taken[i].Sse?;
      assert (taken + [f])[i].Sse?;
    }
    assert f.Sse? ==> (taken + [f])[k].Sse?;
    assert forall i :: 0 <= i < k ==> (taken + [f])[i] == taken[i];
  }

  /** Every action of either process keeps the invariant. */
  lemma StepKeepsInv(env: Env, frames: seq<StreamFrame>, s: State, a: Action)
    requires Inv(env, frames, s) && Enabled(s, a)
    ensures Inv(env, frames, Apply(env, s, a))
  {
    match a
    case Put =>
      assert (s.queue + [s.toPut[0]]) + s.toPut[1..] == s.queue + s.toPut;
    case FinishTask =>
    case CheckDone =>
      if s.taskDone && s.queue == [] {
        assert |frames[s.count..]| == 0;
        assert frames[..s.count] == frames;
      }
    case GetFrame =>
      assert frames[s.count..][0] == s.queue[0];
      assert s.queue[1..] + s.toPut == frames[s.count..][1..] == frames[s.count + 1..];
      TakeOne(env, frames, s.count);
    case PollTimeout =>
    case Yield =>
      if s.phase.rest != [] {
        assert (s.out + [s.phase.rest[0]]) + s.phase.rest[1..] == s.out + s.phase.rest;
      } else {
        assert s.out + s.phase.rest == s.out;
      }
  }

  lemma {:induction false} RunKeepsInv(env: Env, frames: seq<StreamFrame>, s: State, schedule: seq<Action>)
    requires Inv(env, frames, s) && Legal(env, s, schedule)
    ensures Inv(env, frames, Run(env, s, schedule))
    decreases |schedule|
  {
    if schedule == [] {
    } else {
      StepKeepsInv(env, frames, s, schedule[0]);
      RunKeepsInv(env, frames, Apply(env, s, schedule[0]), schedule[1..]);
    }
  }

  lemma InvPrefix(env: Env, frames: seq<StreamFrame>, s: State)
    requires Inv(env, frames, s)
    ensures s.out <= Expected(env, frames)
  {
    if s.phase.Polling? || s.phase.Waiting? {
      assert frames == frames[..s.count] + frames[s.count..];
      FlatMapAppend(f => RenderFrame(env, f), frames[..s.count], frames[s.count..]);
    }
  }

  /** Whatever the interleaving, what has been yielded is a prefix of the
      sequential output, and a run that ends has yielded all of it. */
  lemma ScheduleIndependence(env: Env, frames: seq<StreamFrame>, schedule: seq<Action>)
    requires Legal(env, Start(frames), schedule)
    ensures var s := Run(env, Start(frames), schedule);
            && s.out <= Expected(env, frames)
            && (s.phase.Ended? ==> s.out == Expected(env, frames) && s.phase.ending == TailOf(env, frames).1)
  {
    StartInv(env, frames);
    RunKeepsInv(env, frames, Start(frames), schedule);
    InvPrefix(env, frames, Run(env, Start(frames), schedule));
  }

  /** In every run, a tail is chosen only when the graph run has finished and all
      of its frames have been taken; the loop test passes exactly then. */
  lemma TailAfterAllFrames(env: Env, frames: seq<StreamFrame>, schedule: seq<Action>)
    requires Legal(env, Start(frames), schedule)
    ensures var s := Run(env, Start(frames), schedule);
            && (s.phase.Yielding? || s.phase.Ended? ==> s.taskDone && s.count == |frames|)
            && (s.phase.Polling? ==> (Apply(env, s, CheckDone).phase.Yielding? <==> s.taskDone && s.count == |frames|))
  {
    StartInv(env, frames);
    RunKeepsInv(env, frames, Start(frames), schedule);
    var s := Run(env, Start(frames), schedule);
    assert |frames[..s.count]| == s.count && |s.queue + s.toPut| == |frames| - s.count;
  }

  /** A run that ends has yielded the sequential output, and ends as it does. */
  lemma CompleteRun(env: Env, frames: seq<StreamFrame>, schedule: seq<Action>)
    requires Complete(env, frames, schedule)
    ensures Yielded(env, frames, schedule) == Expected(env, frames)
    ensures Run(env, Start(frames), schedule).phase.ending == TailOf(env, frames).1
  {
    ScheduleIndependence(env, frames, schedule);
  }

  // ------------------------------------------------------------ terminal last

  /** No event the classifier rejects comes after one it accepts. */
  ghost predicate TerminalLast(lib: Lib, out: seq<Output>) {
    forall i, j :: 0 <= i < j < |out| && IsTerminal(lib, out[i]) ==> IsTerminal(lib, out[j])
  }

  ghost predicate AllTerminal(lib: Lib, out: seq<Output>) {
    forall i :: 0 <= i < |out| ==> IsTerminal(lib, out[i])
  }

  ghost predicate NoneTerminal(lib: Lib, out: seq<Output>) {
    forall i :: 0 <= i < |out| ==> !IsTerminal(lib, out[i])
  }

  lemma WrapperChunkTerminal(env: Env, delta: map<string, Json>, reason: string)
    ensures !IsTerminal(env.lib, EventChunk(env.meta, delta))
    ensures IsTerminal(env.lib, FinishChunk(env.meta, reason))
  {
    ChunkChoice(env.meta, delta, JNull);
    ChunkChoice(env.meta, map[], JStr(reason));
  }

  lemma {:induction false} BodyNotTerminal(env: Env, frames: seq<StreamFrame>)
    ensures NoneTerminal(env.lib, Body(env, frames))
  {
    if frames == [] {
    } else {
      BodyNotTerminal(env, frames[1..]);
      if frames[0].Token? {
        WrapperChunkTerminal(env, map["content" := JStr(frames[0].value)], "");
      }
    }
  }

  lemma {:induction false} TerminalsTerminal(env: Env, frames: seq<StreamFrame>)
    ensures AllTerminal(env.lib, Terminals(env, frames))
    ensures forall i :: 0 <= i < |Terminals(env, frames)| ==> Terminals(env, frames)[i].Raw?
  {
    if frames == [] {
    } else {
      TerminalsTerminal(env, frames[1..]);
    }
  }

  lemma ExpectedTerminalLast(env: Env, frames: seq<StreamFrame>)
    ensures TerminalLast(env.lib, Expected(env, frames))
  {
    BodyNotTerminal(env, frames);
    TerminalsTerminal(env, frames);
    match env.outcome
    case Interrupted(toolCalls) =>
      WrapperChunkTerminal(env, map["tool_calls" := toolCalls], "tool_calls");
    case Answered(answer) =>
      WrapperChunkTerminal(env, map["content" := JStr(answer.GetOr(""))], "stop");
    case _ =>
  }

  /** In every run, finished or cut short, terminal events come last. */
  lemma TerminalLastInEveryRun(env: Env, frames: seq<StreamFrame>, schedule: seq<Action>)
    requires Legal(env, Start(frames), schedule)
    ensures TerminalLast(env.lib, Yielded(env, frames, schedule))
  {
    ScheduleIndependence(env, frames, schedule);
    ExpectedTerminalLast(env, frames);
  }

  /** A wrapper tail ends with its finish reason and a `[DONE]`. No event that
      starts with one is left before it; but it is the only one a reader meets
      exactly when no event forwarded at once holds one further down. */
  lemma WrapperSendsOneDone(env: Env, frames: seq<StreamFrame>, schedule: seq<Action>)
    requires Complete(env, frames, schedule)
    requires env.outcome.Interrupted? || (env.outcome.Answered? && !Passthrough(frames))
    ensures var out := Yielded(env, frames, schedule);
            && |out| >= 2 && out[|out| - 1] == Done
            && out[|out| - 2] == FinishChunk(env.meta, if env.outcome.Interrupted? then "tool_calls" else "stop")
            && (forall i :: 0 <= i < |out| - 1 && out[i].Raw? ==> SseDataPayload(out[i].event) != Some(DONE))
            && (NoneHolds(EndsStream, out[..|out| - 1]) <==> NoneHolds(EndsStream, Body(env, frames)))
    ensures !Passthrough(frames) ==> NoneHolds(EndsStream, Body(env, frames))
  {
    ScheduleIndependence(env, frames, schedule);
    BodyNotTerminal(env, frames);
    TokensNeverEnd(env, frames);
    var body, tail := Body(env, frames), TailOf(env, frames).0;
    ChunksThenDone(body, tail);
    var out := body + tail;
    forall i | 0 <= i < |out| - 1 && out[i].Raw? ensures SseDataPayload(out[i].event) != Some(DONE) {
      assert out[i] == body[i] && !IsTerminal(env.lib, body[i]);
    }
  }

  lemma ChunksThenDone(body: seq<Output>, tail: seq<Output>)
    requires tail != [] && forall i :: 0 <= i < |tail| - 1 ==> tail[i].Chunk?
    ensures var out := body + tail;
            && out[|out| - 1] == tail[|tail| - 1]
            && (|tail| >= 2 ==> out[|out| - 2] == tail[|tail| - 2])
            && (forall i :: |body| <= i < |out| - 1 ==> out[i].Chunk?)
            && (NoneHolds(EndsStream, out[..|out| - 1]) <==> NoneHolds(EndsStream, body))
  {
    var out, chunks := body + tail, tail[..|tail| - 1];
    assert out[..|out| - 1] == body + chunks;
    assert NoneHolds(EndsStream, chunks);
    assert forall i :: 0 <= i < |body| ==> (body + chunks)[i] == body[i];
  }

  lemma {:induction false} TokensNeverEnd(env: Env, frames: seq<StreamFrame>)
    ensures !Passthrough(frames) ==> NoneHolds(EndsStream, Body(env, frames))
  {
    if frames == [] {
    } else {
      TokensNeverEnd(env, frames[1..]);
      if !Passthrough(frames) {
        assert frames[0].Token?;
        assert forall i :: 0 <= i < |frames| - 1 ==> frames[1..][i] == frames[i + 1];
      }
    }
  }

  /** A run that fails with any other error leaves the stream without a terminal
      event, even when some are held back. */
  lemma FailedRunStaysOpen(env: Env, frames: seq<StreamFrame>, schedule: seq<Action>)
    requires Complete(env, frames, schedule) && env.outcome.Failed?
    ensures NoneTerminal(env.lib, Yielded(env, frames, schedule))
    ensures Run(env, Start(frames), schedule).phase.ending == RaisedOther
  {
    CompleteRun(env, frames, schedule);
    BodyNotTerminal(env, frames);
  }

  // --------------------------------------------------------------- first pull

  lemma SseLeavesOutput(env: Env, frames: seq<StreamFrame>, i: nat)
    requires i < |frames| && frames[i].Sse?
    ensures Body(env, frames) + Terminals(env, frames) != []
  {
    assert frames == frames[..i] + [frames[i]] + frames[i + 1..];
    FlatMapAppend(f => RenderFrame(env, f), frames[..i] + [frames[i]], frames[i + 1..]);
    FlatMapSnoc(f => RenderFrame(env, f), frames[..i], frames[i]);
    FlatMapAppend(f => TerminalOf(env, f), frames[..i] + [frames[i]], frames[i + 1..]);
    FlatMapSnoc(f => TerminalOf(env, f), frames[..i], frames[i]);
  }

  /** The generator never completes without yielding; an HTTP error leaves it
      exactly when the run failed so before any event was forwarded; it is the
      first thing to leave it exactly when nothing at all was emitted. */
  lemma FirstPull(env: Env, frames: seq<StreamFrame>)
    ensures TailOf(env, frames).1.Completed? ==> Expected(env, frames) != []
    ensures TailOf(env, frames).1.RaisedHttp? <==> env.outcome.HttpFailed? && !Passthrough(frames)
    ensures TailOf(env, frames).1.RaisedHttp? ==>
      TailOf(env, frames).1.error == env.outcome.error && Expected(env, frames) == Body(env, frames)
    ensures Expected(env, frames) == [] && TailOf(env, frames).1.RaisedHttp?
       <==> env.outcome.HttpFailed? && frames == []
  {
    if Passthrough(frames) {
      var i :| 0 <= i < |frames| && frames[i].Sse?;
      SseLeavesOutput(env, frames, i);
    } else if frames != [] {
      assert frames[0].Token?;
      assert Body(env, frames) == [ContentChunk(env.meta, frames[0].value)] + Body(env, frames[1..]);
    }
  }

  // ------------------------------------------------------ who waits for whom

  function Puts(n: nat): seq<Action> {
    if n == 0 then [FinishTask] else [Put] + Puts(n - 1)
  }

  /** The graph run never waits for the client: from any reachable state it can
      write its remaining frames and finish, with nothing taken and nothing sent. */
  lemma {:induction false} ProducerNeverWaits(env: Env, frames: seq<StreamFrame>, s: State)
    requires Inv(env, frames, s) && !s.taskDone
    ensures Legal(env, s, Puts(|s.toPut|))
    ensures var after := Run(env, s, Puts(|s.toPut|));
            after == s.(toPut := [], queue := s.queue + s.toPut, taskDone := true)
    decreases |s.toPut|
  {
    if s.toPut == [] {
      assert Puts(0)[1..] == [] && s.queue + s.toPut == s.queue;
      assert Legal(env, Apply(env, s, FinishTask), []);
    } else {
      var next := Apply(env, s, Put);
      StepKeepsInv(env, frames, s, Put);
      ProducerNeverWaits(env, frames, next);
      assert Puts(|s.toPut|)[1..] == Puts(|next.toPut|);
      assert next.queue + next.toPut == s.queue + s.toPut;
    }
  }

  /** A queued frame is dealt with at the next poll, whether the run is still going
      or not: sent at once, or held back. */
  lemma FrameIsTakenAtOnce(env: Env, frames: seq<StreamFrame>, s: State)
    requires Inv(env, frames, s) && s.phase.Polling? && s.queue != []
    ensures Legal(env, s, [CheckDone, GetFrame])
    ensures var after := Run(env, s, [CheckDone, GetFrame]);
            && after.count == s.count + 1 && after.phase.Polling? && after.taskDone == s.taskDone
            && after.out == s.out + RenderFrame(env, frames[s.count])
            && after.pending == s.pending + TerminalOf(env, frames[s.count])
  {
    var waiting := Apply(env, s, CheckDone);
    assert [CheckDone, GetFrame][1..] == [GetFrame] && [GetFrame][1..] == [];
    assert frames[s.count..][0] == s.queue[0];
    assert Legal(env, Apply(env, waiting, GetFrame), []);
    assert Legal(env, waiting, [GetFrame]);
    assert Run(env, waiting, [GetFrame]) == Run(env, Apply(env, waiting, GetFrame), []);
  }

  // ----------------------------------------------------------------- progress

  function Measure(s: State): nat {
    match s.phase
    case Ended(_) => 0
    case Yielding(rest, _) => |rest| + 1
    case _ =>
      4 * |s.toPut| + 3 * |s.queue| + |s.pending| + (if s.taskDone then 0 else 1)
      + (if s.phase.Polling? then 6 else 5)
  }

  /** Every action but a poll timeout lowers the measure; a timeout costs one. */
  lemma StepMeasure(env: Env, frames: seq<StreamFrame>, s: State, a: Action)
    requires Inv(env, frames, s) && Enabled(s, a)
    ensures a.PollTimeout? ==> Measure(Apply(env, s, a)) == Measure(s) + 1
    ensures !a.PollTimeout? ==> Measure(Apply(env, s, a)) < Measure(s)
  {
    match a
    case Put => assert |s.queue + [s.toPut[0]]| == |s.queue| + 1;
    case GetFrame => assert |TerminalOf(env, s.queue[0])| <= 1;
    case CheckDone =>
      assert s.taskDone && s.queue == [] ==> |Tail(env, s.passthrough, s.pending, s.count).0| <= |s.pending| + 3;
    case _ =>
  }

  /** The consumer waits on an empty queue that nobody will fill any more. */
  predicate OnlyTimeoutHelps(s: State) {
    s.phase.Waiting? && s.queue == [] && s.toPut == [] && s.taskDone
  }

  /** An unfinished state has an enabled action other than a timeout exactly
      when it is not in that situation; there the poll timeout is what ends the
      stream. */
  lemma NonTimeoutEnabledIff(env: Env, frames: seq<StreamFrame>, s: State)
    requires Inv(env, frames, s) && !s.phase.Ended?
    ensures (exists a: Action :: !a.PollTimeout? && Enabled(s, a)) <==> !OnlyTimeoutHelps(s)
  {
    if s.phase.Polling? { assert Enabled(s, CheckDone); }
    else if s.phase.Yielding? { assert Enabled(s, Yield); }
    else if s.queue != [] { assert Enabled(s, GetFrame); }
    else if s.toPut != [] { assert Enabled(s, Put); }
    else if !s.taskDone { assert Enabled(s, FinishTask); }
  }

  /** The situation is reached when the task finishes while the consumer waits. */
  lemma TimeoutIsNeeded(env: Env)
    ensures var schedule := [CheckDone, FinishTask];
            Legal(env, Start([]), schedule) && OnlyTimeoutHelps(Run(env, Start([]), schedule))
  {
    var s := Apply(env, Start([]), CheckDone);
    assert [CheckDone, FinishTask][1..] == [FinishTask] && [FinishTask][1..] == [];
    assert Legal(env, Apply(env, s, FinishTask), []);
    assert Legal(env, s, [FinishTask]);
  }

  function Timeouts(schedule: seq<Action>): nat {
    if schedule == [] then 0 else (if schedule[0].PollTimeout? then 1 else 0) + Timeouts(schedule[1..])
  }

  /** A run with finitely many poll timeouts is finite. */
  lemma {:induction false} RunLength(env: Env, frames: seq<StreamFrame>, s: State, schedule: seq<Action>)
    requires Inv(env, frames, s) && Legal(env, s, schedule)
    ensures |schedule| + Measure(Run(env, s, schedule)) <= Measure(s) + 2 * Timeouts(schedule)
    decreases |schedule|
  {
    if schedule == [] {
    } else {
      StepKeepsInv(env, frames, s, schedule[0]);
      StepMeasure(env, frames, s, schedule[0]);
      RunLength(env, frames, Apply(env, s, schedule[0]), schedule[1..]);
    }
  }

  predicate WaitsForNothing(s: State) {
    s.phase.Waiting? && s.queue == [] && s.toPut == []
  }

  /** From such a state every run that ends has a timeout. */
  lemma {:induction false} TimeoutUnavoidable(env: Env, s: State, schedule: seq<Action>)
    requires WaitsForNothing(s) && Legal(env, s, schedule) && Run(env, s, schedule).phase.Ended?
    ensures Timeouts(schedule) >= 1
    decreases |schedule|
  {
    if !schedule[0].PollTimeout? {
      TimeoutUnavoidable(env, Apply(env, s, schedule[0]), schedule[1..]);
    }
  }

  /** Every reachable state can still be run to its end, with one more timeout
      if the consumer waits on a queue that stays empty, and none otherwise. */
  lemma {:induction false} CanAlwaysEnd(env: Env, frames: seq<StreamFrame>, s: State) returns (schedule: seq<Action>)
    requires Inv(env, frames, s)
    ensures Legal(env, s, schedule) && Run(env, s, schedule).phase.Ended?
    ensures Timeouts(schedule) == if WaitsForNothing(s) then 1 else 0
    decreases Measure(s) + (if WaitsForNothing(s) then 2 else 0)
  {
    if s.phase.Ended? { return []; }
    var a :=
      if OnlyTimeoutHelps(s) then PollTimeout
      else if s.toPut != [] then Put
      else if !s.taskDone then FinishTask
      else if s.phase.Polling? then CheckDone
      else if s.phase.Waiting? then GetFrame
      else Yield;
    StepKeepsInv(env, frames, s, a);
    StepMeasure(env, frames, s, a);
    var rest := CanAlwaysEnd(env, frames, Apply(env, s, a));
    schedule := [a] + rest;
    assert schedule[1..] == rest;
  }
}
