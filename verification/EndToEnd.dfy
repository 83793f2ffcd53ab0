/** From the provider's response lines to the text a client decodes: gateway,
    chat node and stream protocol together. */
module EndToEnd {
  import opened Text
  import opened Json
  import opened Gateway
  import opened Streaming
  import opened Partition

  // ------------------------------------------- a client that reads the stream

  /** A client that reads what it is sent as the gateway reads its provider:
      all `data:` payloads, until the first `[DONE]`. Reading a printed wrapper
      chunk gives the chunk back. */
  function ReadOutput(lib: Lib, s: Scan, o: Output): Scan {
    match o
    case Raw(event) => ScanAll(lib, s, PayloadsOfText(event))
    case Chunk(json) => if s.done then s else ScanChunk(lib, s, json)
    case Done => s.(done := true)
  }

  function ReadAll(lib: Lib, s: Scan, out: seq<Output>): Scan
    decreases |out|
  {
    if out == [] then s else ReadAll(lib, ReadOutput(lib, s, out[0]), out[1..])
  }

  /** Tokens one event carries, read on its own. */
  function EventTokens(lib: Lib, o: Output): seq<string> {
    if o.Raw? then AnswerTokens(lib, PayloadsOfText(o.event)) else []
  }

  function AllTokens(lib: Lib, events: seq<Output>): seq<string> {
    FlatMap(o => EventTokens(lib, o), events)
  }

  /** An upstream event that reports no error before its own `[DONE]`. */
  predicate Healthy(lib: Lib, o: Output) {
    o.Raw? && StreamError(lib, PayloadsOfText(o.event)).None?
  }

  /** Events up to the one that ends the stream for its reader. */
  function ThroughEnd(events: seq<Output>): seq<Output> {
    Through(EndsStream, events)
  }

  lemma {:induction false} ReadDone(lib: Lib, s: Scan, out: seq<Output>)
    requires s.done
    ensures ReadAll(lib, s, out) == s
    decreases |out|
  {
    if out == [] {
    } else {
      if out[0].Raw? {
        ScanDone(lib, s, PayloadsOfText(out[0].event));
      }
      ReadDone(lib, s, out[1..]);
    }
  }

  /** Reading healthy events gives all their tokens, through the end. */
  lemma {:induction false} ReadHealthy(lib: Lib, s: Scan, events: seq<Output>)
    requires !s.done && s.error.None?
    requires forall i :: 0 <= i < |events| ==> Healthy(lib, events[i])
    ensures ReadAll(lib, s, events).tokens == s.tokens + AllTokens(lib, ThroughEnd(events))
    decreases |events|
  {
    if events == [] {
    } else {
      var e := events[0];
      var next := ReadOutput(lib, s, e);
      ScanMeaning(lib, s, PayloadsOfText(e.event));
      if EndsStream(e) {
        ReadDone(lib, next, events[1..]);
        FlatMapOne(o => EventTokens(lib, o), e);
      } else {
        ReadHealthy(lib, next, events[1..]);
        Associate(s.tokens, EventTokens(lib, e), AllTokens(lib, ThroughEnd(events[1..])));
        assert ([e] + ThroughEnd(events[1..]))[1..] == ThroughEnd(events[1..]);
      }
    }
  }

  // ------------------------------------- moving terminal events to the end

  function Late(lib: Lib): Output -> bool { o => IsTerminal(lib, o) }

  function Carries(lib: Lib): Output -> bool { o => EventTokens(lib, o) != [] }

  /** The events with content that a client takes notice of, in its order. */
  function ContentSeen(lib: Lib, out: seq<Output>): seq<Output> {
    Filter(true, Carries(lib), ThroughEnd(out))
  }

  /** After a terminal event with content, every event is terminal, or has no
      content and does not end the stream. */
  ghost predicate InOrder(lib: Lib, events: seq<Output>) {
    Orderly(Late(lib), Carries(lib), EndsStream, events)
  }

  /** A passthrough client sees the content in the provider's order exactly when
      the events are in order in this sense. */
  lemma ContentInOrderIff(lib: Lib, events: seq<Output>)
    requires OnlyLastEnds(EndsStream, events)
    ensures ContentSeen(lib, StablePartition(Late(lib), events)) == Filter(true, Carries(lib), events)
       <==> InOrder(lib, events)
  {
    ReadInOrderIff(Late(lib), Carries(lib), EndsStream, events);
  }

  lemma {:induction false} TokensOfCarrying(lib: Lib, events: seq<Output>)
    ensures AllTokens(lib, Filter(true, Carries(lib), events)) == AllTokens(lib, events)
  {
    if events == [] {
    } else {
      TokensOfCarrying(lib, events[1..]);
      var rest := Filter(true, Carries(lib), events[1..]);
      if Carries(lib)(events[0]) {
        assert ([events[0]] + rest)[1..] == rest;
      } else {
        assert [] + rest == rest;
      }
    }
  }

  // ------------------------------------------------------ what is forwarded

  /** The events the gateway forwards for the lines of a response. */
  function SentEvents(lines: seq<string>): seq<Output> {
    Map(RawOutput, EventTexts(ThroughDone(Groups(lines))))
  }

  lemma EventTextPayloads(group: seq<string>)
    ensures PayloadsOfText(EventText(group)) == LinePayloads(group)
  {
    var text := Join("\n", group);
    assert text + "\n\n" == (text + "\n" + "") + "\n" + "";
    PayloadsAcrossNewline(text + "\n" + "", "");
    PayloadsAcrossNewline(text, "");
    JoinedPayloads(group);
    assert PayloadsOfText("") == [];
  }

  /** An event is read as the lines it is made of. */
  lemma GroupEvent(lib: Lib, group: seq<string>)
    ensures var event := Raw(EventText(group));
            && EventTokens(lib, event) == AnswerTokens(lib, LinePayloads(group))
            && (Healthy(lib, event) <==> StreamError(lib, LinePayloads(group)).None?)
            && (EndsStream(event) <==> HasDone(group))
  {
    EventTextPayloads(group);
  }

  lemma {:induction false} GroupTokens(lib: Lib, s: Scan, groups: seq<seq<string>>)
    requires !s.done && s.error.None?
    requires forall i :: 0 <= i < |groups| - 1 ==> !HasDone(groups[i])
    requires ScanAll(lib, s, GroupPayloads(groups)).error.None?
    ensures var events := Map(RawOutput, EventTexts(groups));
            && ScanAll(lib, s, GroupPayloads(groups)).tokens == s.tokens + AllTokens(lib, events)
            && (forall i :: 0 <= i < |events| ==> Healthy(lib, events[i]))
            && (forall i :: 0 <= i < |events| ==> (EndsStream(events[i]) <==> HasDone(groups[i])))
    decreases |groups|
  {
    if groups == [] {
    } else {
      var first, rest := LinePayloads(groups[0]), GroupPayloads(groups[1..]);
      var next := ScanAll(lib, s, first);
      var event, events := Raw(EventText(groups[0])), Map(RawOutput, EventTexts(groups[1..]));
      assert Map(RawOutput, EventTexts(groups)) == [event] + events;
      assert ([event] + events)[1..] == events;
      GroupEvent(lib, groups[0]);
      ScanMeaning(lib, s, first);
      ScanAppend(lib, s, first, rest);
      if HasDone(groups[0]) {
        assert groups[1..] == [];
        ScanDone(lib, next, rest);
        FlatMapOne(o => EventTokens(lib, o), event);
        assert [event] + events == [event];
      } else {
        if next.error.Some? {
          ScanSticky(lib, next, rest);
        }
        GroupTokens(lib, next, groups[1..]);
        Associate(s.tokens, EventTokens(lib, event), AllTokens(lib, events));
      }
    }
  }

  lemma SentFacts(lib: Lib, lines: seq<string>)
    requires StreamError(lib, LinePayloads(lines)).None?
    ensures var events := SentEvents(lines);
            && AnswerTokens(lib, LinePayloads(lines)) == AllTokens(lib, events)
            && OnlyLastEnds(EndsStream, events)
            && forall i :: 0 <= i < |events| ==> Healthy(lib, events[i])
  {
    var sent := ThroughDone(Groups(lines));
    ThroughIsPrefix(HasDone, Groups(lines));
    FlatPass(lib, lines);
    GroupTokens(lib, START, sent);
    assert [] + AllTokens(lib, SentEvents(lines)) == AllTokens(lib, SentEvents(lines));
  }

  lemma RenderedSse(env: Env, text: string)
    ensures RenderFrame(env, Sse(text)) == if Late(env.lib)(Raw(text)) then [] else [Raw(text)]
    ensures TerminalOf(env, Sse(text)) == if Late(env.lib)(Raw(text)) then [Raw(text)] else []
  {
  }

  lemma {:induction false} FlatMapIsFilter(f: StreamFrame -> seq<Output>, want: bool, p: Output -> bool,
                                           texts: seq<string>)
    requires forall text :: f(Sse(text)) == if p(Raw(text)) == want then [Raw(text)] else []
    ensures FlatMap(f, SseFrames(texts)) == Filter(want, p, Map(RawOutput, texts))
  {
    if texts == [] {
    } else {
      FlatMapIsFilter(f, want, p, texts[1..]);
      assert SseFrames(texts)[1..] == SseFrames(texts[1..]);
      assert Map(RawOutput, texts)[1..] == Map(RawOutput, texts[1..]);
    }
  }

  /** The runtime forwards what is not terminal and holds back what is. */
  lemma ForwardedIsPartition(env: Env, texts: seq<string>)
    ensures Body(env, SseFrames(texts)) == Filter(false, Late(env.lib), Map(RawOutput, texts))
    ensures Terminals(env, SseFrames(texts)) == Filter(true, Late(env.lib), Map(RawOutput, texts))
  {
    forall text ensures RenderFrame(env, Sse(text)) == if Late(env.lib)(Raw(text)) then [] else [Raw(text)] {
      RenderedSse(env, text);
    }
    forall text ensures TerminalOf(env, Sse(text)) == if Late(env.lib)(Raw(text)) then [Raw(text)] else [] {
      RenderedSse(env, text);
    }
    FlatMapIsFilter(f => RenderFrame(env, f), false, Late(env.lib), texts);
    FlatMapIsFilter(f => TerminalOf(env, f), true, Late(env.lib), texts);
  }

  // --------------------------------------------------------- the main results

  /** What `run_once` returns for a chat answer. */
  function AnswerOutcome(answer: string): Outcome {
    Answered(if answer == "" then None else Some(answer))
  }

  /** The text a client makes of the stream. */
  function DecodedText(env: Env, out: seq<Output>): string {
    Flatten(ReadAll(env.lib, START, out).tokens)
  }

  lemma ReadFinish(lib: Lib, meta: Meta, s: Scan)
    ensures ReadOutput(lib, s, FinishChunk(meta, "stop")) == s
  {
    ChunkChoice(meta, map[], JStr("stop"));
    ChunkHasNoError(meta, map[], JStr("stop"));
  }

  lemma ChunkHasNoError(meta: Meta, delta: map<string, Json>, finishReason: Json)
    ensures ChunkJson(meta, delta, finishReason).Get("error").JNull?
  {
    assert "error"[0] != "model"[0];
  }

  /** In passthrough, whatever the schedule, the client decodes exactly the
      answer text that the chat node joins from the gateway's tokens, although
      terminal events are sent last. */
  lemma PassthroughMeansAnswer(env: Env, lines: seq<string>, answer: string, schedule: seq<Action>)
    requires StreamError(env.lib, LinePayloads(lines)).None? && InOrder(env.lib, SentEvents(lines))
    requires answer == Flatten(AnswerTokens(env.lib, LinePayloads(lines))) && env.outcome == AnswerOutcome(answer)
    requires Complete(env, ForwardedFrames(true, lines), schedule)
    ensures DecodedText(env, Yielded(env, ForwardedFrames(true, lines), schedule)) == answer
  {
    var frames := ForwardedFrames(true, lines);
    var texts := EventTexts(ThroughDone(Groups(lines)));
    CompleteRun(env, frames, schedule);
    SentFacts(env.lib, lines);
    if texts == [] {
      EmptyResponse(env);
    } else {
      assert frames[0].Sse?;
      ForwardedIsPartition(env, texts);
      PartitionedMeansAll(env.lib, SentEvents(lines));
    }
  }

  /** A response without events is answered by the wrapper, with no content. */
  lemma EmptyResponse(env: Env)
    requires env.outcome == Answered(None)
    ensures ReadAll(env.lib, START, Expected(env, [])).tokens == []
  {
    ReadFinish(env.lib, env.meta, START);
    assert Expected(env, []) == [FinishChunk(env.meta, "stop"), Done];
    assert Expected(env, [])[1..] == [Done] && [Done][1..] == [];
  }

  lemma PartitionedMeansAll(lib: Lib, events: seq<Output>)
    requires OnlyLastEnds(EndsStream, events) && InOrder(lib, events)
    requires forall i :: 0 <= i < |events| ==> Healthy(lib, events[i])
    ensures ReadAll(lib, START, StablePartition(Late(lib), events)).tokens == AllTokens(lib, events)
  {
    var out := StablePartition(Late(lib), events);
    forall i | 0 <= i < |out| ensures Healthy(lib, out[i]) {
      FilterMember(false, Late(lib), events, out[i]);
      FilterMember(true, Late(lib), events, out[i]);
      assert out[i] in events;
    }
    ReadHealthy(lib, START, out);
    ContentInOrderIff(lib, events);
    TokensOfCarrying(lib, ThroughEnd(out));
    TokensOfCarrying(lib, events);
    assert [] + AllTokens(lib, events) == AllTokens(lib, events);
  }

  // -------------------------------------------------------- upstream failures

  /** In passthrough, whether the run answers or fails with an HTTP error, the
      stream completes and delivers every forwarded event once: first those that
      are not terminal, then the terminal ones, each class in its order. */
  lemma PassthroughDeliversAll(env: Env, lines: seq<string>, schedule: seq<Action>)
    requires env.outcome.Answered? || env.outcome.HttpFailed?
    requires SentEvents(lines) != [] && Complete(env, ForwardedFrames(true, lines), schedule)
    ensures var s := Run(env, Start(ForwardedFrames(true, lines)), schedule);
            && s.out == StablePartition(Late(env.lib), SentEvents(lines))
            && s.phase.ending == Completed
            && multiset(s.out) == multiset(SentEvents(lines))
  {
    var frames := ForwardedFrames(true, lines);
    CompleteRun(env, frames, schedule);
    assert frames[0].Sse?;
    ForwardedIsPartition(env, EventTexts(ThroughDone(Groups(lines))));
    PartitionPermutes(Late(env.lib), SentEvents(lines));
  }

  lemma {:induction false} ReadSticky(lib: Lib, s: Scan, events: seq<Output>)
    requires s.error.Some? && forall i :: 0 <= i < |events| ==> events[i].Raw?
    ensures ReadAll(lib, s, events).error == s.error
    decreases |events|
  {
    if events == [] {
    } else {
      if s.done {
        ScanDone(lib, s, PayloadsOfText(events[0].event));
      } else {
        ScanSticky(lib, s, PayloadsOfText(events[0].event));
      }
      ReadSticky(lib, ReadOutput(lib, s, events[0]), events[1..]);
    }
  }

  ghost predicate SomeUnhealthy(lib: Lib, events: seq<Output>) {
    exists o :: o in events && !Healthy(lib, o)
  }

  lemma UnhealthyCons(lib: Lib, e: Output, rest: seq<Output>)
    ensures SomeUnhealthy(lib, [e] + rest) <==> !Healthy(lib, e) || SomeUnhealthy(lib, rest)
  {
    assert e in [e] + rest;
    assert forall o :: o in [e] + rest <==> o == e || o in rest;
  }

  /** A reader ends with an error exactly when it has read an unhealthy event. */
  lemma {:induction false} ReadErrorIff(lib: Lib, s: Scan, events: seq<Output>)
    requires !s.done && s.error.None? && forall k :: 0 <= k < |events| ==> events[k].Raw?
    ensures ReadAll(lib, s, events).error.Some? <==> SomeUnhealthy(lib, ThroughEnd(events))
    decreases |events|
  {
    if events == [] {
    } else {
      var e, rest := events[0], events[1..];
      var next := ReadOutput(lib, s, e);
      ScanMeaning(lib, s, PayloadsOfText(e.event));
      UnhealthyCons(lib, e, []);
      UnhealthyCons(lib, e, ThroughEnd(rest));
      if next.error.Some? {
        ReadSticky(lib, next, rest);
      } else if next.done {
        ReadDone(lib, next, rest);
      } else {
        ReadErrorIff(lib, next, rest);
      }
    }
  }

  lemma {:induction false} UnhealthyGroup(lib: Lib, s: Scan, groups: seq<seq<string>>) returns (i: nat)
    requires !s.done && s.error.None?
    requires forall k :: 0 <= k < |groups| - 1 ==> !HasDone(groups[k])
    requires ScanAll(lib, s, GroupPayloads(groups)).error.Some?
    ensures i < |groups| && StreamError(lib, LinePayloads(groups[i])).Some?
    decreases |groups|
  {
    var first, rest := LinePayloads(groups[0]), GroupPayloads(groups[1..]);
    var next := ScanAll(lib, s, first);
    ScanMeaning(lib, s, first);
    ScanAppend(lib, s, first, rest);
    if next.error.Some? {
      i := 0;
    } else if next.done {
      ScanDone(lib, next, rest);
      assert false;
    } else {
      var k := UnhealthyGroup(lib, next, groups[1..]);
      i := k + 1;
    }
  }

  /** When the provider reports an error, the run fails and the stream completes
      without a wrapper. A client that reads it finds an error in it exactly when
      no event that is not terminal ends the reading before the held-back ones,
      or an error is reported by an event that is not terminal. */
  lemma UpstreamErrorReachesClientIff(env: Env, lines: seq<string>, error: HttpError, schedule: seq<Action>)
    requires StreamError(env.lib, LinePayloads(lines)) == Some(error) && env.outcome == HttpFailed(error)
    requires Complete(env, ForwardedFrames(true, lines), schedule)
    ensures var events := SentEvents(lines);
            && Run(env, Start(ForwardedFrames(true, lines)), schedule).phase.ending == Completed
            && (ReadAll(env.lib, START, Yielded(env, ForwardedFrames(true, lines), schedule)).error.Some?
                <==> (!CutsOff(Late(env.lib), EndsStream, events)
                      || SomeUnhealthy(env.lib, Filter(false, Late(env.lib), events))))
  {
    var sent, events := ThroughDone(Groups(lines)), SentEvents(lines);
    ThroughIsPrefix(HasDone, Groups(lines));
    FlatPass(env.lib, lines);
    var i := UnhealthyGroup(env.lib, START, sent);
    EventTextPayloads(sent[i]);
    assert events[i] in events && !Healthy(env.lib, events[i]);
    forall k | 0 <= k < |events| ensures EndsStream(events[k]) <==> HasDone(sent[k]) {
      EventTextPayloads(sent[k]);
    }
    PassthroughDeliversAll(env, lines, schedule);
    PartitionedErrorIff(env.lib, events);
  }

  lemma PartitionMember(lib: Lib, events: seq<Output>, o: Output)
    ensures o in StablePartition(Late(lib), events) <==> o in events
  {
    FilterMember(false, Late(lib), events, o);
    FilterMember(true, Late(lib), events, o);
  }

  lemma PartitionedErrorIff(lib: Lib, events: seq<Output>)
    requires OnlyLastEnds(EndsStream, events) && SomeUnhealthy(lib, events)
    requires forall k :: 0 <= k < |events| ==> events[k].Raw?
    ensures ReadAll(lib, START, StablePartition(Late(lib), events)).error.Some?
       <==> (!CutsOff(Late(lib), EndsStream, events) || SomeUnhealthy(lib, Filter(false, Late(lib), events)))
  {
    var out := StablePartition(Late(lib), events);
    forall k | 0 <= k < |out| ensures out[k].Raw? {
      PartitionMember(lib, events, out[k]);
    }
    ReadErrorIff(lib, START, out);
    ThroughOfPartition(Late(lib), EndsStream, events);
    var o :| o in events && !Healthy(lib, o);
    PartitionMember(lib, events, o);
  }
}
