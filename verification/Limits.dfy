/** Inputs on which a passthrough client does not get what it expects: content
    that comes with a finish reason, and a `[DONE]` below the first data line of
    an event, or none at all. */
module Limits {
  import opened Text
  import opened Json
  import opened Gateway
  import opened Streaming
  import opened Partition
  import opened EndToEnd
  import opened Interrupts
  import opened Wire

  // ------------------------------------------------------------- a chunk's text

  function OneChunk(content: string, finishReason: Json): Json {
    var choice := JObj(map["delta" := JObj(map["content" := JStr(content)]), "finish_reason" := finishReason]);
    JObj(map["choices" := JArr([choice])])
  }

  lemma OneChunkReads(content: string, finishReason: Json)
    ensures ExtractStreamContent(OneChunk(content, finishReason)) == content
    ensures forall lib :: ExtractStreamError(lib, OneChunk(content, finishReason)) == None
    ensures TerminalChunk(OneChunk(content, finishReason)) <==> !finishReason.JNull?
  {
    assert "delta"[0] != "finish_reason"[0] && "error"[0] != "choices"[0];
  }

  /** The payloads of an event, and the one its classifier looks at. */
  lemma FirstPayload(p: string, more: seq<string>)
    requires OneLinePayload(p) && CleanGroup([DataLine(p)] + more)
    ensures PayloadsOfText(EventText([DataLine(p)] + more)) == [p] + LinePayloads(more)
    ensures SseDataPayload(EventText([DataLine(p)] + more)) == Some(p)
  {
    var group := [DataLine(p)] + more;
    DataLineReads(p);
    EventTextPayloads(group);
    assert group[1..] == more;
    SplitEventText(group, "");
    assert EventText(group) + "" == EventText(group);
    assert group + [""] + SplitLines("") == [DataLine(p)] + (more + [""] + SplitLines(""));
  }

  lemma OneLineEvent(p: string)
    requires OneLinePayload(p)
    ensures PayloadsOfText(EventText([DataLine(p)])) == [p]
    ensures SseDataPayload(EventText([DataLine(p)])) == Some(p)
    ensures LinePayloads([DataLine(p)]) == [p]
  {
    DataLineReads(p);
    assert [DataLine(p)] + [] == [DataLine(p)];
    FirstPayload(p, []);
    EventTextPayloads([DataLine(p)]);
  }

  // ------------------------------------------------------------ reordered content

  lemma ReadTwo(lib: Lib, a: Output, b: Output)
    ensures ReadAll(lib, START, [a, b]) == ReadOutput(lib, ReadOutput(lib, START, a), b)
  {
    var first := ReadOutput(lib, START, a);
    assert [a, b][1..] == [b] && [b][1..] == [];
    assert ReadAll(lib, START, [a, b]) == ReadAll(lib, first, [b]);
    assert ReadAll(lib, first, [b]) == ReadAll(lib, ReadOutput(lib, first, b), []);
  }

  lemma PartitionOfTwo(lib: Lib, a: Output, b: Output)
    requires Late(lib)(a) && !Late(lib)(b)
    ensures StablePartition(Late(lib), [a, b]) == [b, a]
  {
    assert [a, b] == ([] + [a]) + [b];
    FilterSnoc(true, Late(lib), [], a);
    FilterSnoc(false, Late(lib), [], a);
    FilterSnoc(true, Late(lib), [] + [a], b);
    FilterSnoc(false, Late(lib), [] + [a], b);
  }

  lemma TwoGroups(a: string, b: string)
    requires a != "" && b != ""
    ensures Groups([a, "", b, ""]) == [[a], [b]]
  {
    RegroupOne([], [a], [b, ""]);
    RegroupOne([], [b], []);
    assert [a] + [""] + [b, ""] == [a, "", b, ""] && [b] + [""] + [] == [b, ""];
    assert [] + [a] == [a] && [] + [b] == [b];
  }

  lemma TwoEventsSent(a: string, b: string)
    requires a != "" && b != "" && !HasDone([a]) && !HasDone([b])
    ensures SentEvents([a, "", b, ""]) == [Raw(EventText([a])), Raw(EventText([b]))]
  {
    TwoGroups(a, b);
    var groups := [[a], [b]];
    ThroughSkips(HasDone, groups, []);
    assert groups + [] == groups;
  }

  lemma OneChunkEvent(lib: Lib, s: Scan, event: string, p: string, content: string, finishReason: Json)
    requires PayloadsOfText(event) == [p] && SseDataPayload(event) == Some(p)
    requires p != "" && p != DONE && lib.loads(p) == Some(OneChunk(content, finishReason)) && content != ""
    requires !s.done && s.error.None?
    ensures ReadOutput(lib, s, Raw(event)) == s.(tokens := s.tokens + [content])
    ensures Late(lib)(Raw(event)) <==> !finishReason.JNull?
  {
    OneChunkReads(content, finishReason);
    assert [p][1..] == [];
    assert ScanStep(lib, s, p) == s.(tokens := s.tokens + [content]);
    assert ScanAll(lib, s, [p]) == ScanAll(lib, ScanStep(lib, s, p), []);
  }

  /** Two events, the first of them terminal and with content: the provider's
      order of content is not the client's. */
  lemma PairIsReordered(lib: Lib, ea: string, eb: string, pa: string, pb: string, x: string, y: string, stop: Json)
    requires x != "" && y != "" && !stop.JNull? && pa != "" && pb != "" && pa != DONE && pb != DONE
    requires PayloadsOfText(ea) == [pa] && SseDataPayload(ea) == Some(pa)
    requires PayloadsOfText(eb) == [pb] && SseDataPayload(eb) == Some(pb)
    requires lib.loads(pa) == Some(OneChunk(x, stop)) && lib.loads(pb) == Some(OneChunk(y, JNull))
    ensures ReadAll(lib, START, [Raw(ea), Raw(eb)]).tokens == [x, y]
    ensures ReadAll(lib, START, StablePartition(Late(lib), [Raw(ea), Raw(eb)])).tokens == [y, x]
  {
    OneChunkEvent(lib, START, ea, pa, x, stop);
    OneChunkEvent(lib, START, eb, pb, y, JNull);
    OneChunkEvent(lib, START.(tokens := START.tokens + [x]), eb, pb, y, JNull);
    OneChunkEvent(lib, START.(tokens := START.tokens + [y]), ea, pa, x, stop);
    ReadTwo(lib, Raw(ea), Raw(eb));
    ReadTwo(lib, Raw(eb), Raw(ea));
    PartitionOfTwo(lib, Raw(ea), Raw(eb));
  }

  lemma FlattenPayloads(a: seq<string>, b: seq<string>)
    ensures GroupPayloads([a, b]) == LinePayloads(a) + LinePayloads(b)
  {
    assert [a, b][1..] == [b];
    FlatMapOne(LinePayloads, b);
  }

  /** The answer of two chunks. */
  lemma TwoChunkAnswer(lib: Lib, pa: string, pb: string, x: string, y: string, stop: Json)
    requires OneLinePayload(pa) && OneLinePayload(pb) && pa != DONE && pb != DONE && x != "" && y != ""
    requires lib.loads(pa) == Some(OneChunk(x, stop)) && lib.loads(pb) == Some(OneChunk(y, JNull))
    ensures AnswerTokens(lib, LinePayloads([DataLine(pa), "", DataLine(pb), ""])) == [x, y]
  {
    var a, b := DataLine(pa), DataLine(pb);
    DataLineReads(pa);
    DataLineReads(pb);
    GroupsKeepPayloads([], [a, "", b, ""]);
    TwoGroups(a, b);
    OneLineEvent(pa);
    OneLineEvent(pb);
    FlattenPayloads([a], [b]);
    assert LinePayloads([]) + LinePayloads([a, "", b, ""]) == LinePayloads([a, "", b, ""]);
    OneChunkReads(x, stop);
    OneChunkReads(y, JNull);
    assert [pb] + [] == [pb] && [pa] + [pb] == [pa, pb];
    LiveCons(lib, pa, [pb]);
    LiveCons(lib, pb, []);
    assert AnswerTokens(lib, []) == [];
  }

  /** Without the order condition the claim fails: for a provider that sends "x"
      with a finish reason and "y" after it, the stored answer is "xy", and under
      every schedule the client of the passthrough stream decodes "yx". */
  lemma LateContentIsReordered(env: Env, px: string, py: string, schedule: seq<Action>)
    requires OneLinePayload(px) && OneLinePayload(py) && px != DONE && py != DONE
    requires env.lib.loads(px) == Some(OneChunk("x", JStr("stop"))) && env.lib.loads(py) == Some(OneChunk("y", JNull))
    requires env.outcome == Answered(Some("xy"))
    requires Complete(env, ForwardedFrames(true, [DataLine(px), "", DataLine(py), ""]), schedule)
    ensures var lines := [DataLine(px), "", DataLine(py), ""];
            && Flatten(AnswerTokens(env.lib, LinePayloads(lines))) == "xy"
            && DecodedText(env, Yielded(env, ForwardedFrames(true, lines), schedule)) == "yx"
  {
    var lines := [DataLine(px), "", DataLine(py), ""];
    TwoChunkStream(env.lib, px, py, "x", "y", JStr("stop"));
    PassthroughDeliversAll(env, lines, schedule);
    TwoChunkAnswer(env.lib, px, py, "x", "y", JStr("stop"));
    TextOfTwo("x", "y");
    TextOfTwo("y", "x");
  }

  lemma TwoChunkStream(lib: Lib, px: string, py: string, x: string, y: string, stop: Json)
    requires OneLinePayload(px) && OneLinePayload(py) && px != DONE && py != DONE && x != "" && y != "" && !stop.JNull?
    requires lib.loads(px) == Some(OneChunk(x, stop)) && lib.loads(py) == Some(OneChunk(y, JNull))
    ensures var events := SentEvents([DataLine(px), "", DataLine(py), ""]);
            events != [] && ReadAll(lib, START, StablePartition(Late(lib), events)).tokens == [y, x]
  {
    DataLineReads(px);
    DataLineReads(py);
    OneLineEvent(px);
    OneLineEvent(py);
    TwoEventsSent(DataLine(px), DataLine(py));
    PairIsReordered(lib, EventText([DataLine(px)]), EventText([DataLine(py)]), px, py, x, y, stop);
  }

  lemma TextOfTwo(x: string, y: string)
    ensures Flatten([x, y]) == x + y
  {
    assert [x, y][1..] == [y];
    FlatMapOne<string, char>(Same, y);
  }

  // -------------------------------------------------------------- an early [DONE]

  /** An event whose second data line is `[DONE]` is not terminal for the runtime
      and is forwarded at once, but it ends the stream for the client: it never
      reads the tool calls of the interrupted run. */
  lemma EarlyDoneHidesToolCalls(env: Env, p: string, schedule: seq<Action>)
    requires OneLinePayload(p) && p != DONE && env.outcome.Interrupted?
    requires env.lib.loads(p).Some? && !TerminalChunk(env.lib.loads(p).value)
    requires Complete(env, ForwardedFrames(true, [DataLine(p), DataLine(DONE)]), schedule)
    ensures var lines := [DataLine(p), DataLine(DONE)];
            var out, event := Yielded(env, ForwardedFrames(true, lines), schedule), Raw(EventText(lines));
            && !IsTerminal(env.lib, event) && EndsStream(event)
            && out == [event] + InterruptTail(env.meta, env.outcome.toolCalls)
            && ThroughEnd(out) == [event]
  {
    var lines := [DataLine(p), DataLine(DONE)];
    var event := Raw(EventText(lines));
    DataLineReads(p);
    DoneIsOneLine();
    DataLineReads(DONE);
    assert lines == [DataLine(p)] + [DataLine(DONE)];
    FirstPayload(p, [DataLine(DONE)]);
    OneLineEvent(DONE);
    assert DONE in [p] + [DONE];
    OneEventSent(lines);
    InterruptDropsLate(env, lines, schedule);
    ToolCallsReadIff(env, lines, schedule);
    FilterSnoc(false, Late(env.lib), [], event);
    assert [] + [event] == [event];
  }

  lemma OneEventSent(lines: seq<string>)
    requires CleanGroup(lines)
    ensures SentEvents(lines) == [Raw(EventText(lines))]
  {
    UnterminatedEvent([], lines);
    assert [] + lines == lines && [lines][1..] == [];
    assert Through(HasDone, [lines]) == if HasDone(lines) then [lines] else [lines] + Through(HasDone, []);
  }

  lemma {:induction false} UnterminatedEvent(pending: seq<string>, lines: seq<string>)
    requires forall k :: 0 <= k < |lines| ==> lines[k] != ""
    ensures pending + lines != [] ==> GroupsFrom(pending, lines) == [pending + lines]
    decreases |lines|
  {
    if lines == [] {
      assert pending + lines == pending;
    } else {
      UnterminatedEvent(pending + [lines[0]], lines[1..]);
      assert (pending + [lines[0]]) + lines[1..] == pending + lines;
    }
  }

  // ------------------------------------------------------ one event, nothing else

  lemma OnlyEvent(p: string)
    requires OneLinePayload(p)
    ensures SentEvents([DataLine(p)]) == [Raw(EventText([DataLine(p)]))]
  {
    DataLineReads(p);
    OneEventSent([DataLine(p)]);
  }

  lemma PartitionOfOne(late: Output -> bool, o: Output)
    ensures StablePartition(late, [o]) == [o] && Filter(false, late, [o]) == if late(o) then [] else [o]
  {
    FilterSnoc(false, late, [], o);
    FilterSnoc(true, late, [], o);
    assert [] + [o] == [o];
  }

  lemma OneChunkAnswer(lib: Lib, p: string, x: string, reason: Json)
    requires OneLinePayload(p) && p != DONE && x != "" && lib.loads(p) == Some(OneChunk(x, reason))
    ensures AnswerTokens(lib, LinePayloads([DataLine(p)])) == [x]
  {
    OneLineEvent(p);
    OneChunkReads(x, reason);
    assert [p] + [] == [p] && AnswerTokens(lib, []) == [];
    LiveCons(lib, p, []);
  }

  lemma LateEventIsDropped(lib: Lib, p: string)
    requires OneLinePayload(p) && p != DONE && lib.loads(p) == Some(OneChunk("x", JStr("stop")))
    ensures EarlyEvents(lib, [DataLine(p)]) == []
  {
    OneLineEvent(p);
    OneChunkReads("x", JStr("stop"));
    OnlyEvent(p);
    PartitionOfOne(Late(lib), Raw(EventText([DataLine(p)])));
  }

  /** A draft that comes in a terminal event is stored for review, but the client
      that is asked to review it reads nothing. */
  lemma FinishedDraftIsLost(env: Env, p: string, schedule: seq<Action>)
    requires OneLinePayload(p) && p != DONE && env.lib.loads(p) == Some(OneChunk("x", JStr("stop")))
    requires env.outcome.Interrupted? && Complete(env, ForwardedFrames(true, [DataLine(p)]), schedule)
    ensures Flatten(AnswerTokens(env.lib, LinePayloads([DataLine(p)]))) == "x"
    ensures DecodedText(env, Yielded(env, ForwardedFrames(true, [DataLine(p)]), schedule)) == ""
  {
    OneChunkAnswer(env.lib, p, "x", JStr("stop"));
    FlatMapOne<string, char>(Same, "x");
    LateEventIsDropped(env.lib, p);
    InterruptDropsLate(env, [DataLine(p)], schedule);
    InterruptTailHasNoText(env.lib, env.meta, START, env.outcome.toolCalls);
    assert [] + InterruptTail(env.meta, env.outcome.toolCalls) == InterruptTail(env.meta, env.outcome.toolCalls);
  }

  /** A provider that closes its stream without a `[DONE]` leaves the client of the
      completed stream without one. */
  lemma StreamEndsWithoutDone(env: Env, p: string, schedule: seq<Action>)
    requires OneLinePayload(p) && p != DONE && env.outcome.Answered?
    requires Complete(env, ForwardedFrames(true, [DataLine(p)]), schedule)
    ensures var event := Raw(EventText([DataLine(p)]));
            !EndsStream(event) && Yielded(env, ForwardedFrames(true, [DataLine(p)]), schedule) == [event]
  {
    OneLineEvent(p);
    OnlyEvent(p);
    OneEventDelivered(env, [DataLine(p)], Raw(EventText([DataLine(p)])), schedule);
  }

  lemma OneEventDelivered(env: Env, lines: seq<string>, event: Output, schedule: seq<Action>)
    requires SentEvents(lines) == [event] && env.outcome.Answered?
    requires Complete(env, ForwardedFrames(true, lines), schedule)
    ensures Yielded(env, ForwardedFrames(true, lines), schedule) == [event]
  {
    PassthroughDeliversAll(env, lines, schedule);
    PartitionOfOne(Late(env.lib), event);
  }

  // ------------------------------------------------------------------ real texts

  /** A chunk as a provider prints it, for content that needs no escapes. */
  function PrintedChunk(content: string, finishReason: string): string {
    "{\"choices\":[" + ("{\"delta\":{" + ("\"content\":\"" + (content
      + ("\"},\"finish" + ("_reason\":" + (finishReason + "}]}"))))))
  }

  /** Such texts, for instance with `"stop"` or `null` as the reason, are payloads
      of one line. */
  lemma PrintedChunkIsOneLine(content: string, finishReason: string)
    requires BreakFree(content) && BreakFree(finishReason)
    ensures OneLinePayload(PrintedChunk(content, finishReason)) && PrintedChunk(content, finishReason) != DONE
  {
    var t1 := finishReason + "}]}";
    var t2 := "_reason\":" + t1;
    var t3 := "\"},\"finish" + t2;
    var t4 := content + t3;
    var t5 := "\"content\":\"" + t4;
    var t6 := "{\"delta\":{" + t5;
    BreakFreeAppend(finishReason, "}]}");
    BreakFreeAppend("_reason\":", t1);
    BreakFreeAppend("\"},\"finish", t2);
    BreakFreeAppend(content, t3);
    BreakFreeAppend("\"content\":\"", t4);
    BreakFreeAppend("{\"delta\":{", t5);
    BreakFreeAppend("{\"choices\":[", t6);
    var text := PrintedChunk(content, finishReason);
    assert text[0] == '{' && text[|text| - 1] == '}';
  }
}
