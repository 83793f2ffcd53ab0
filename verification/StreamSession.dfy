/** The variables of one call of `WorkflowRuntime.stream`, updated in place by
    the atomic sections of its two processes. */
module StreamSession {
  import opened Text
  import opened Gateway
  import opened Streaming

  class Session {
    const env: Env
    var toPut: seq<StreamFrame>
    var taskDone: bool
    var queue: seq<StreamFrame>
    var phase: Phase
    var passthroughMode: bool
    var pendingTerminalEvents: seq<string>
    var streamedChunkCount: nat
    var streamedCharCount: nat
    var yielded: seq<Output>

    function View(): State
      reads this
    {
      State(toPut, taskDone, queue, phase, passthroughMode, Map(RawOutput, pendingTerminalEvents),
            streamedChunkCount, streamedCharCount, yielded)
    }

    constructor (env: Env, frames: seq<StreamFrame>)
      ensures this.env == env && View() == Start(frames)
    {
      this.env := env;
      toPut, taskDone, queue, phase := frames, false, [], Polling;
      passthroughMode, pendingTerminalEvents := false, [];
      streamedChunkCount, streamedCharCount, yielded := 0, 0, [];
    }

    /** The graph run writes its next frame. */
    method WriteFrame()
      requires Enabled(View(), Put)
      modifies this
      ensures View() == Apply(env, old(View()), Put)
    {
      queue := queue + [toPut[0]];
      toPut := toPut[1..];
    }

    method FinishTask()
      requires Enabled(View(), Action.FinishTask)
      modifies this
      ensures View() == Apply(env, old(View()), Action.FinishTask)
    {
      taskDone := true;
    }

    /** `task.done() and queue.empty()`: leave the loop or wait for a frame. */
    method CheckTaskDone()
      requires Enabled(View(), CheckDone)
      modifies this
      ensures View() == Apply(env, old(View()), CheckDone)
    {
      if taskDone && queue == [] {
        var rest, ending := AwaitTask();
        phase := Yielding(rest, ending);
      } else {
        phase := Waiting;
      }
    }

    /** `wait_for(queue.get())` returned a frame: count it, then forward it or
        hold it back. */
    method ReceiveFrame()
      requires Enabled(View(), GetFrame)
      modifies this
      ensures View() == Apply(env, old(View()), GetFrame)
    {
      var frame := TakeFrame();
      if frame.Sse? {
        passthroughMode := true;
        if IsTerminalSseEvent(env.lib, frame.value) {
          HoldBack(frame.value);
          return;
        }
        Forward(Raw(frame.value));
        return;
      }
      Forward(ContentChunk(env.meta, frame.value));
    }

    method TakeFrame() returns (frame: StreamFrame)
      requires queue != []
      modifies this
      ensures frame == old(queue[0])
      ensures View() == old(View()).(queue := old(queue)[1..], phase := Polling, count := old(streamedChunkCount) + 1,
                                     chars := old(streamedCharCount) + |frame.value|)
    {
      frame := queue[0];
      queue := queue[1..];
      phase := Polling;
      streamedChunkCount := streamedChunkCount + 1;
      streamedCharCount := streamedCharCount + |frame.value|;
    }

    method HoldBack(event: string)
      modifies this
      ensures View() == old(View()).(pending := old(View()).pending + [Raw(event)], out := old(View()).out + [])
    {
      pendingTerminalEvents := pendingTerminalEvents + [event];
      assert Map(RawOutput, pendingTerminalEvents) == old(View()).pending + [Raw(event)];
      assert yielded == yielded + [];
    }

    method Forward(o: Output)
      modifies this
      ensures View() == old(View()).(pending := old(View()).pending + [], out := old(View()).out + [o])
    {
      yielded := yielded + [o];
      assert View().pending == View().pending + [];
    }

    method OnTimeout()
      requires Enabled(View(), PollTimeout)
      modifies this
      ensures View() == Apply(env, old(View()), PollTimeout)
    {
      phase := Polling;
    }

    /** Everything after the loop, as the list of items still to be yielded. */
    method AwaitTask() returns (rest: seq<Output>, ending: Ending)
      ensures (rest, ending) == Tail(env, passthroughMode, Map(RawOutput, pendingTerminalEvents), streamedChunkCount)
    {
      rest := [];
      match env.outcome
      case HttpFailed(error) =>
        if passthroughMode {
          rest := FlushPending();
          return rest, Completed;
        }
        return [], RaisedHttp(error);
      case Failed =>
        return [], RaisedOther;
      case Interrupted(toolCalls) =>
        rest := [ToolCallsChunk(env.meta, toolCalls)];
        rest := rest + [FinishChunk(env.meta, "tool_calls")];
        rest := rest + [Done];
        assert rest == [ToolCallsChunk(env.meta, toolCalls), FinishChunk(env.meta, "tool_calls"), Done];
        return rest, Completed;
      case Answered(answer) =>
        if passthroughMode {
          rest := FlushPending();
          return rest, Completed;
        }
        var content := answer.GetOr("");
        if streamedChunkCount == 0 && content != "" {
          rest := [ContentChunk(env.meta, content)];
        }
        return rest + [FinishChunk(env.meta, "stop"), Done], Completed;
    }

    method FlushPending() returns (rest: seq<Output>)
      ensures rest == Map(RawOutput, pendingTerminalEvents)
    {
      rest := [];
      for i := 0 to |pendingTerminalEvents|
        invariant rest == Map(RawOutput, pendingTerminalEvents[..i])
      {
        rest := rest + [Raw(pendingTerminalEvents[i])];
      }
      assert pendingTerminalEvents[..|pendingTerminalEvents|] == pendingTerminalEvents;
    }

    method YieldNext()
      requires Enabled(View(), Yield)
      modifies this
      ensures View() == Apply(env, old(View()), Yield)
    {
      if phase.rest == [] {
        phase := Ended(phase.ending);
      } else {
        yielded := yielded + [phase.rest[0]];
        phase := Yielding(phase.rest[1..], phase.ending);
      }
    }

    /** One run under a given schedule of the two processes. What it has yielded
        when it ends does not depend on the schedule. */
    method Drive(schedule: seq<Action>)
      requires Legal(env, View(), schedule)
      modifies this
      ensures View() == Run(env, old(View()), schedule)
      ensures forall frames :: old(View()) == Start(frames) && phase.Ended? ==> yielded == Expected(env, frames)
    {
      ghost var start := View();
      for i := 0 to |schedule|
        invariant Legal(env, View(), schedule[i..])
        invariant Run(env, View(), schedule[i..]) == Run(env, start, schedule)
      {
        assert schedule[i..][1..] == schedule[i + 1..];
        match schedule[i]
        case Put => WriteFrame();
        case FinishTask => FinishTask();
        case CheckDone => CheckTaskDone();
        case GetFrame => ReceiveFrame();
        case PollTimeout => OnTimeout();
        case Yield => YieldNext();
      }
      assert schedule[|schedule|..] == [];
      forall frames | start == Start(frames) && phase.Ended? ensures yielded == Expected(env, frames) {
        ScheduleIndependence(env, frames, schedule);
      }
    }
  }
}
