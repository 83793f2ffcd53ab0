/** A run that stops for a review while the provider's events are forwarded: the
    held-back events are dropped, and the wrapper's tail follows the others. */
module Interrupts {
  import opened Text
  import opened Json
  import opened Gateway
  import opened Streaming
  import opened Partition
  import opened EndToEnd

  /** The events forwarded as they come. */
  function EarlyEvents(lib: Lib, lines: seq<string>): seq<Output> {
    Filter(false, Late(lib), SentEvents(lines))
  }

  function InterruptTail(meta: Meta, toolCalls: Json): seq<Output> {
    [ToolCallsChunk(meta, toolCalls), FinishChunk(meta, "tool_calls"), Done]
  }

  /** Every held-back event is dropped, and nothing else is. */
  lemma InterruptDropsLate(env: Env, lines: seq<string>, schedule: seq<Action>)
    requires env.outcome.Interrupted? && Complete(env, ForwardedFrames(true, lines), schedule)
    ensures Yielded(env, ForwardedFrames(true, lines), schedule)
         == EarlyEvents(env.lib, lines) + InterruptTail(env.meta, env.outcome.toolCalls)
  {
    CompleteRun(env, ForwardedFrames(true, lines), schedule);
    ForwardedIsPartition(env, EventTexts(ThroughDone(Groups(lines))));
  }

  // ------------------------------------------------- an early end of the stream

  lemma OnlyLastSentEnds(lines: seq<string>)
    ensures OnlyLastEnds(EndsStream, SentEvents(lines))
  {
    var sent, events := ThroughDone(Groups(lines)), SentEvents(lines);
    ThroughIsPrefix(HasDone, Groups(lines));
    forall k | 0 <= k < |events| ensures EndsStream(events[k]) <==> HasDone(sent[k]) {
      EventTextPayloads(sent[k]);
    }
  }

  /** An early event ends the stream exactly when it is the last event sent. */
  lemma EarlyEndIff<T>(late: T -> bool, ends: T -> bool, xs: seq<T>)
    requires OnlyLastEnds(ends, xs)
    ensures NoneHolds(ends, Filter(false, late, xs)) <==> !CutsOff(late, ends, xs)
    ensures Through(ends, Filter(false, late, xs)) == Filter(false, late, xs)
  {
    if xs != [] {
      var before, x := xs[..|xs| - 1], xs[|xs| - 1];
      assert xs == before + [x];
      FilterNoneHolds(ends, false, late, before);
      FilterSnoc(false, late, before, x);
      var kept := Filter(false, late, before);
      ThroughSkips(ends, kept, [x]);
      ThroughSkips(ends, kept, []);
      assert [x][1..] == [] && kept + [] == kept;
      if CutsOff(late, ends, xs) {
        assert (kept + [x])[|kept|] == x;
      }
    }
  }

  lemma RawOnly(lib: Lib, texts: seq<string>, o: Output)
    requires o in Filter(false, Late(lib), Map(RawOutput, texts))
    ensures o.Raw?
  {
    FilterMember(false, Late(lib), Map(RawOutput, texts), o);
  }

  /** Reading `early` and then a tail whose last output alone ends the stream. */
  lemma ThroughTail(early: seq<Output>, tail: seq<Output>)
    requires Through(EndsStream, early) == early && Through(EndsStream, tail) == tail
    ensures NoneHolds(EndsStream, early) ==> ThroughEnd(early + tail) == early + tail
    ensures !NoneHolds(EndsStream, early) ==> ThroughEnd(early + tail) == early
  {
    if NoneHolds(EndsStream, early) {
      ThroughSkips(EndsStream, early, tail);
    } else {
      ThroughIsPrefix(EndsStream, early);
      var n := |early| - 1;
      var last := early[n];
      assert early == early[..n] + [last];
      assert forall i :: 0 <= i < n ==> !EndsStream(early[i]);
      ThroughSkips(EndsStream, early[..n], [last] + tail);
      Associate(early[..n], [last], tail);
    }
  }

  lemma InterruptTailIsRead(meta: Meta, toolCalls: Json)
    ensures var tail := InterruptTail(meta, toolCalls);
            Through(EndsStream, tail) == tail && tail[0] == ToolCallsChunk(meta, toolCalls)
  {
    var a, b := ToolCallsChunk(meta, toolCalls), FinishChunk(meta, "tool_calls");
    assert [a, b, Done][1..] == [b, Done] && [b, Done][1..] == [Done];
    assert Through(EndsStream, [Done]) == [Done];
    assert Through(EndsStream, [b, Done]) == [b] + [Done];
    assert Through(EndsStream, [a, b, Done]) == [a] + ([b] + [Done]);
  }

  /** A client that stops at the first `[DONE]` reads the tool calls of an
      interrupted run, and the wrapper's `[DONE]` is the only one, exactly when
      the provider's last event is not one that holds a `[DONE]` without being
      terminal. Otherwise the client reads what was forwarded and stops. */
  lemma ToolCallsReadIff(env: Env, lines: seq<string>, schedule: seq<Action>)
    requires env.outcome.Interrupted? && Complete(env, ForwardedFrames(true, lines), schedule)
    ensures var out, early := Yielded(env, ForwardedFrames(true, lines), schedule), EarlyEvents(env.lib, lines);
            var cut := CutsOff(Late(env.lib), EndsStream, SentEvents(lines));
            && |out| == |early| + 3
            && (NoneHolds(EndsStream, early) <==> !cut)
            && (NoneHolds(EndsStream, out[..|out| - 1]) <==> !cut)
            && (ToolCallsChunk(env.meta, env.outcome.toolCalls) in ThroughEnd(out) <==> !cut)
            && ThroughEnd(out) == if cut then early else out
  {
    var early, tail := EarlyEvents(env.lib, lines), InterruptTail(env.meta, env.outcome.toolCalls);
    InterruptDropsLate(env, lines, schedule);
    OnlyLastSentEnds(lines);
    EarlyEndIff(Late(env.lib), EndsStream, SentEvents(lines));
    InterruptTailIsRead(env.meta, env.outcome.toolCalls);
    ThroughTail(early, tail);
    forall o | o in early ensures o.Raw? {
      RawOnly(env.lib, EventTexts(ThroughDone(Groups(lines))), o);
    }
    assert (early + tail)[|early|] == tail[0];
    ChunksThenDone(early, tail);
  }

  // ------------------------------------------------------- the text that arrives

  lemma {:induction false} ReadAppend(lib: Lib, s: Scan, a: seq<Output>, b: seq<Output>)
    ensures ReadAll(lib, s, a + b) == ReadAll(lib, ReadAll(lib, s, a), b)
    decreases |a|
  {
    if a == [] {
      assert a + b == b;
    } else {
      assert (a + b)[0] == a[0] && (a + b)[1..] == a[1..] + b;
      ReadAppend(lib, ReadOutput(lib, s, a[0]), a[1..], b);
    }
  }

  /** Neither the tool calls nor the finish reason is text. */
  lemma InterruptTailHasNoText(lib: Lib, meta: Meta, s: Scan, toolCalls: Json)
    ensures ReadAll(lib, s, InterruptTail(meta, toolCalls)).tokens == s.tokens
  {
    var calls, finish := map["tool_calls" := toolCalls], map[];
    ChunkChoice(meta, calls, JNull);
    ChunkChoice(meta, finish, JStr("tool_calls"));
    ChunkHasNoError(meta, calls, JNull);
    ChunkHasNoError(meta, finish, JStr("tool_calls"));
    assert "content"[0] != "tool_calls"[0];
    var a, b := ToolCallsChunk(meta, toolCalls), FinishChunk(meta, "tool_calls");
    assert ReadOutput(lib, s, a) == s && ReadOutput(lib, s, b) == s;
    assert [a, b, Done][1..] == [b, Done] && [b, Done][1..] == [Done] && [Done][1..] == [];
    assert ReadAll(lib, s, [a, b, Done]) == ReadAll(lib, s, [b, Done]) == ReadAll(lib, s, [Done]);
    assert ReadAll(lib, s, [Done]) == ReadAll(lib, ReadOutput(lib, s, Done), []);
  }

  function TextOfEvents(lib: Lib, events: seq<Output>): string {
    Flatten(AllTokens(lib, events))
  }

  lemma {:induction false} ContentsNotEmpty(lib: Lib, payloads: seq<string>)
    ensures Flatten(Contents(lib, payloads)) == "" <==> Contents(lib, payloads) == []
  {
    if payloads == [] {
    } else {
      ContentsNotEmpty(lib, payloads[1..]);
      FlattenAppend(ContentToken(lib, payloads[0]), Contents(lib, payloads[1..]));
      FlatMapOne<string, char>(Same, ContentOf(lib, payloads[0]));
    }
  }

  lemma TextCons(lib: Lib, o: Output, rest: seq<Output>)
    ensures TextOfEvents(lib, [o] + rest) == Flatten(EventTokens(lib, o)) + TextOfEvents(lib, rest)
    ensures Flatten(EventTokens(lib, o)) != "" <==> Carries(lib)(o)
  {
    assert ([o] + rest)[1..] == rest;
    FlattenAppend(EventTokens(lib, o), AllTokens(lib, rest));
    if o.Raw? {
      var live := Live(PayloadsOfText(o.event));
      ContentsNotEmpty(lib, live[..ErrorIndex(lib, live)]);
    }
  }

  /** No late event has content. */
  ghost predicate NoLateText(lib: Lib, late: Output -> bool, events: seq<Output>) {
    forall o :: o in events && late(o) ==> !Carries(lib)(o)
  }

  lemma NoLateTextCons(lib: Lib, late: Output -> bool, e: Output, rest: seq<Output>)
    ensures NoLateText(lib, late, [e] + rest) <==> (late(e) ==> !Carries(lib)(e)) && NoLateText(lib, late, rest)
  {
    assert e in [e] + rest;
    assert forall o :: o in [e] + rest <==> o == e || o in rest;
  }

  /** Dropping the late events keeps the text exactly when none of them has any. */
  lemma {:induction false} DroppingTextIff(lib: Lib, late: Output -> bool, events: seq<Output>)
    ensures var all, kept, dropped := TextOfEvents(lib, events), TextOfEvents(lib, Filter(false, late, events)),
                                      TextOfEvents(lib, Filter(true, late, events));
            && |all| == |kept| + |dropped|
            && (dropped == "" ==> all == kept)
            && (dropped == "" <==> NoLateText(lib, late, events))
  {
    if events == [] {
    } else {
      var e, rest := events[0], events[1..];
      DroppingTextIff(lib, late, rest);
      TextCons(lib, e, rest);
      TextCons(lib, e, Filter(false, late, rest));
      TextCons(lib, e, Filter(true, late, rest));
      NoLateTextCons(lib, late, e, rest);
      assert [] + Filter(false, late, rest) == Filter(false, late, rest);
      assert [] + Filter(true, late, rest) == Filter(true, late, rest);
      assert events == [e] + rest;
    }
  }

  /** What a client of an interrupted passthrough stream decodes: the text of the
      events that are not terminal. It is the whole answer exactly when no
      terminal event carries content, `[DONE]` or not. */
  lemma InterruptedTextIff(env: Env, lines: seq<string>, schedule: seq<Action>)
    requires env.outcome.Interrupted? && Complete(env, ForwardedFrames(true, lines), schedule)
    requires StreamError(env.lib, LinePayloads(lines)).None?
    ensures var text := DecodedText(env, Yielded(env, ForwardedFrames(true, lines), schedule));
            && text == TextOfEvents(env.lib, EarlyEvents(env.lib, lines))
            && (text == Flatten(AnswerTokens(env.lib, LinePayloads(lines)))
                <==> NoLateText(env.lib, Late(env.lib), SentEvents(lines)))
  {
    var lib, events, early := env.lib, SentEvents(lines), EarlyEvents(env.lib, lines);
    var tail := InterruptTail(env.meta, env.outcome.toolCalls);
    InterruptDropsLate(env, lines, schedule);
    SentFacts(lib, lines);
    forall i | 0 <= i < |early| ensures Healthy(lib, early[i]) {
      FilterMember(false, Late(lib), events, early[i]);
    }
    ReadHealthy(lib, START, early);
    EarlyEndIff(Late(lib), EndsStream, events);
    ReadAppend(lib, START, early, tail);
    InterruptTailHasNoText(lib, env.meta, ReadAll(lib, START, early), env.outcome.toolCalls);
    assert [] + AllTokens(lib, early) == AllTokens(lib, early);
    DroppingTextIff(lib, Late(lib), events);
  }

  // ------------------------------------------------------ the end of the stream

  lemma LastOfPartitionEnds<T>(late: T -> bool, ends: T -> bool, xs: seq<T>)
    requires xs != [] && OnlyLastEnds(ends, xs)
    ensures var out := StablePartition(late, xs);
            && out != []
            && (ends(out[|out| - 1]) <==> ends(xs[|xs| - 1]) && (late(xs[|xs| - 1]) || Filter(true, late, xs) == []))
  {
    var before, x := xs[..|xs| - 1], xs[|xs| - 1];
    assert xs == before + [x];
    FilterNoneHolds(ends, true, late, before);
    FilterSnoc(true, late, before, x);
    FilterSnoc(false, late, before, x);
    var kept, fin := Filter(false, late, xs), Filter(true, late, xs);
    LastOfTwo(kept, fin);
  }

  lemma LastOfTwo<T>(a: seq<T>, b: seq<T>)
    requires a != [] || b != []
    ensures (a + b)[|a + b| - 1] == if b == [] then a[|a| - 1] else b[|b| - 1]
  {
  }

  /** A passthrough stream ends with a `[DONE]` exactly when the provider's last
      event holds one and is terminal, or is the last for want of terminal
      events. (A stream the wrapper closes always ends with one.) */
  lemma PassthroughEndsWithDoneIff(env: Env, lines: seq<string>, schedule: seq<Action>)
    requires env.outcome.Answered? || env.outcome.HttpFailed?
    requires SentEvents(lines) != [] && Complete(env, ForwardedFrames(true, lines), schedule)
    ensures var out, events := Yielded(env, ForwardedFrames(true, lines), schedule), SentEvents(lines);
            var last := events[|events| - 1];
            && out != []
            && (EndsStream(out[|out| - 1])
                <==> EndsStream(last) && (Late(env.lib)(last) || Filter(true, Late(env.lib), events) == []))
  {
    PassthroughDeliversAll(env, lines, schedule);
    assert Yielded(env, ForwardedFrames(true, lines), schedule) == StablePartition(Late(env.lib), SentEvents(lines));
    PartitionEndsIff(env.lib, lines);
  }

  lemma PartitionEndsIff(lib: Lib, lines: seq<string>)
    requires SentEvents(lines) != []
    ensures var out, events := StablePartition(Late(lib), SentEvents(lines)), SentEvents(lines);
            var last := events[|events| - 1];
            && out != []
            && (EndsStream(out[|out| - 1])
                <==> EndsStream(last) && (Late(lib)(last) || Filter(true, Late(lib), events) == []))
  {
    OnlyLastSentEnds(lines);
    LastOfPartitionEnds(Late(lib), EndsStream, SentEvents(lines));
  }
}
