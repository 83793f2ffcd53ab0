/** The streaming branch of the chat completions endpoint: the first item is
    pulled before the response starts, so that an early failure becomes a JSON
    error. */
module Router {
  import opened Text
  import opened Gateway
  import opened Streaming
  import opened StreamSession

  datatype HttpResponse =
    | EventStream(sent: seq<Output>, ending: Ending)   // 200, then how the body ends
    | ErrorJson(status: int)
    | Unhandled                                        // another exception
    | EmptyGenerator                                   // `anext` met the end

  /** `_bind_stream_logging_context`: the pulled item, then the rest. */
  method BindStream(first: Option<Output>, rest: seq<Output>) returns (sent: seq<Output>)
    ensures sent == (if first.Some? then [first.value] else []) + rest
  {
    sent := if first.Some? then [first.value] else [];
    var head := sent;
    for i := 0 to |rest|
      invariant sent == head + rest[..i]
    {
      sent := sent + [rest[i]];
    }
    assert rest[..|rest|] == rest;
  }

  /** `chat_completions` with `stream` set, on what the generator yields. */
  method ChatCompletions(generated: seq<Output>, ending: Ending) returns (response: HttpResponse)
    ensures response == Respond(generated, ending)
  {
    if generated == [] {
      match ending
      case RaisedHttp(TimeoutError(_)) => return ErrorJson(504);
      case RaisedHttp(ResponseError(_, _)) => return ErrorJson(502);
      case RaisedOther => return Unhandled;
      case Completed => return EmptyGenerator;
    }
    var sent := BindStream(Some(generated[0]), generated[1..]);
    assert sent == generated;
    response := EventStream(sent, ending);
  }

  function Respond(generated: seq<Output>, ending: Ending): HttpResponse {
    if generated != [] then EventStream(generated, ending)
    else
      match ending
      case RaisedHttp(e) => ErrorJson(if e.TimeoutError? then 504 else 502)
      case RaisedOther => Unhandled
      case Completed => EmptyGenerator
  }

  /** For every complete run of the stream: the endpoint never meets an empty
      generator, a started response carries the whole stream, and a JSON error is
      returned exactly when the provider failed before anything was emitted. */
  lemma FirstPullIsSafe(env: Env, frames: seq<StreamFrame>, schedule: seq<Action>)
    requires Complete(env, frames, schedule)
    ensures var response := Respond(Yielded(env, frames, schedule), Run(env, Start(frames), schedule).phase.ending);
            && !response.EmptyGenerator?
            && (response.EventStream? ==> response.sent == Expected(env, frames))
            && (response.ErrorJson? <==> env.outcome.HttpFailed? && frames == [])
            && (response.ErrorJson? ==> response.status == if env.outcome.error.TimeoutError? then 504 else 502)
  {
    CompleteRun(env, frames, schedule);
    FirstPull(env, frames);
  }

  /** The endpoint on a stream, driven by any schedule that ends: the response does
      not depend on the schedule. */
  method Serve(env: Env, frames: seq<StreamFrame>, schedule: seq<Action>) returns (response: HttpResponse)
    requires Complete(env, frames, schedule)
    ensures response.ErrorJson? <==> env.outcome.HttpFailed? && frames == []
    ensures response.ErrorJson? ==> response.status == if env.outcome.error.TimeoutError? then 504 else 502
    ensures response.Unhandled? <==> env.outcome.Failed? && Body(env, frames) == []
    ensures response.EventStream? ==> response == EventStream(Expected(env, frames), TailOf(env, frames).1)
    ensures !response.EmptyGenerator?
  {
    var session := new Session(env, frames);
    session.Drive(schedule);
    FirstPullIsSafe(env, frames, schedule);
    FirstPull(env, frames);
    CompleteRun(env, frames, schedule);
    response := ChatCompletions(session.yielded, session.phase.ending);
    if response.Unhandled? {
      assert Expected(env, frames) == [];
    }
    assert env.outcome.Failed? ==> Expected(env, frames) == Body(env, frames);
  }
}
