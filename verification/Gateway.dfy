/** The LLM gateway: the provider's event stream is cut into events at blank
    lines, each event is forwarded to the client as it is and folded into answer
    tokens, the first upstream error and the `[DONE]` stop. */
module Gateway {
  import opened Text
  import opened Json

  datatype HttpError = ResponseError(status: int, message: string) | TimeoutError(message: string)

  datatype StreamFrame = Token(value: string) | Sse(value: string)

  function FrameValue(frame: StreamFrame): string { frame.value }

  datatype ChatMessage = ChatMessage(role: string, content: string, name: Option<string>, toolCallId: Option<string>)

  const DONE := "[DONE]"

  /** What the bound stream writer receives: nothing when streaming is off, and
      never an empty value. */
  function EmitToken(toClient: bool, token: string): seq<StreamFrame> {
    if toClient && token != "" then [Token(token)] else []
  }

  function EmitSse(toClient: bool, event: string): seq<StreamFrame> {
    if toClient && event != "" then [Sse(event)] else []
  }

  /** A workflow node's loop over the tokens it is given. */
  method JoinTokens(tokens: seq<string>) returns (text: string)
    ensures text == Flatten(tokens)
  {
    text := "";
    for i := 0 to |tokens|
      invariant text + Flatten(tokens[i..]) == Flatten(tokens)
    {
      assert tokens[i..][1..] == tokens[i + 1..];
      Associate(text, tokens[i], Flatten(tokens[i + 1..]));
      text := text + tokens[i];
    }
    assert tokens[|tokens|..] == [] && text + "" == text;
  }

  // ------------------------------------------------------ reading one chunk

  function TextParts(items: seq<Json>): string {
    if items == [] then ""
    else
      (if items[0].JObj? && items[0].Get("text").JStr? then items[0].Get("text").s else "")
      + TextParts(items[1..])
  }

  function ExtractStreamContent(response: Json): string {
    if !response.JObj? then ""
    else
      var choices := response.Get("choices");
      if !choices.JArr? || choices.items == [] || !choices.items[0].JObj? then ""
      else
        var first := choices.items[0];
        var delta := first.Get("delta");
        var content := if delta.JObj? then delta.Get("content") else JNull;
        if content.JStr? then content.s
        else if content.JArr? then TextParts(content.items)
        else if first.Get("text").JStr? then first.Get("text").s
        else ""
  }

  function CoerceStatus(lib: Lib, value: Json): int {
    match value
    case JInt(n) => if n >= 400 then n else 502
    case JStr(s) =>
      (match lib.toInt(s)
       case Some(n) => if n >= 400 then n else 502
       case None => 502)
    case _ => 502
  }

  function ExtractStreamError(lib: Lib, response: Json): Option<HttpError> {
    if !response.JObj? then None
    else
      match response.Get("error")
      case JStr(s) => if s != "" then Some(ResponseError(502, s)) else None
      case JObj(fields) =>
        var error := JObj(fields);
        var message :=
          if error.Get("message").JStr? && Strip(error.Get("message").s) != "" then error.Get("message").s
          else "openai-compatible llm stream returned an error";
        var status := if error.Get("status").Truthy() then error.Get("status") else error.Get("status_code");
        Some(ResponseError(CoerceStatus(lib, status), message))
      case _ => None
  }

  /** An upstream error always has a failure status and a message. */
  lemma StreamErrorIsFailure(lib: Lib, response: Json)
    ensures var e := ExtractStreamError(lib, response);
            e.Some? ==> e.value.ResponseError? && e.value.status >= 400 && e.value.message != ""
  {
    if response.JObj? && response.Get("error").JObj? {
      var message := response.Get("error").Get("message");
      if message.JStr? && message.s == "" {
        assert Strip(message.s) == "";
      }
    }
  }

  function ErrorOf(lib: Lib, payload: string): Option<HttpError> {
    match lib.loads(payload)
    case None => None
    case Some(chunk) => ExtractStreamError(lib, chunk)
  }

  function ContentOf(lib: Lib, payload: string): string {
    match lib.loads(payload)
    case None => ""
    case Some(chunk) => ExtractStreamContent(chunk)
  }

  // ------------------------------------------- the payloads of lines of text

  /** The non-empty `data:` payload of a line, if it has one. */
  function DataPayload(line: string): seq<string> {
    if StartsWith(line, "data:") && Strip(line[5..]) != "" then [Strip(line[5..])] else []
  }

  function PayloadsOfText(text: string): seq<string> {
    FlatMap(DataPayload, SplitLines(text))
  }

  /** The payloads of each line, read on its own. */
  function LinePayloads(lines: seq<string>): seq<string> {
    FlatMap(PayloadsOfText, lines)
  }

  lemma {:induction false} DataPayloadsNonBlank(lines: seq<string>)
    ensures FlatMap(DataPayload, NonBlank(lines)) == FlatMap(DataPayload, lines)
  {
    if lines == [] {
    } else {
      DataPayloadsNonBlank(lines[1..]);
      FlatMapAppend(DataPayload, NonBlankLine(lines[0]), NonBlank(lines[1..]));
      if lines[0] != "" {
        FlatMapOne(DataPayload, lines[0]);
      }
    }
  }

  lemma PayloadsAcrossNewline(a: string, b: string)
    ensures PayloadsOfText(a + "\n" + b) == PayloadsOfText(a) + PayloadsOfText(b)
  {
    SplitLinesAcrossNewline(a, b);
    DataPayloadsNonBlank(SplitLines(a + "\n" + b));
    DataPayloadsNonBlank(SplitLines(a));
    DataPayloadsNonBlank(SplitLines(b));
    FlatMapAppend(DataPayload, NonBlank(SplitLines(a)), NonBlank(SplitLines(b)));
  }

  /** Joining lines into an event and splitting the event again reads the same
      payloads, even when a line itself holds line breaks. */
  lemma {:induction false} JoinedPayloads(lines: seq<string>)
    ensures PayloadsOfText(Join("\n", lines)) == LinePayloads(lines)
  {
    if lines == [] {
    } else if |lines| == 1 {
      assert lines == [lines[0]];
      FlatMapOne(PayloadsOfText, lines[0]);
    } else {
      JoinedPayloads(lines[1..]);
      PayloadsAcrossNewline(lines[0], Join("\n", lines[1..]));
    }
  }

  // --------------------------------------------------------------- the fold

  datatype Scan = Scan(done: bool, tokens: seq<string>, error: Option<HttpError>)

  const START := Scan(false, [], None)

  function ScanChunk(lib: Lib, s: Scan, chunk: Json): Scan {
    match ExtractStreamError(lib, chunk)
    case Some(e) => if s.error.None? then s.(error := Some(e)) else s
    case None =>
      var token := ExtractStreamContent(chunk);
      if s.error.Some? || token == "" then s else s.(tokens := s.tokens + [token])
  }

  function ScanStep(lib: Lib, s: Scan, payload: string): Scan {
    if s.done then s
    else if payload == DONE then s.(done := true)
    else
      match lib.loads(payload)
      case None => s
      case Some(chunk) => ScanChunk(lib, s, chunk)
  }

  function ScanAll(lib: Lib, s: Scan, payloads: seq<string>): Scan
    decreases |payloads|
  {
    if payloads == [] then s else ScanAll(lib, ScanStep(lib, s, payloads[0]), payloads[1..])
  }

  lemma {:induction false} ScanAppend(lib: Lib, s: Scan, a: seq<string>, b: seq<string>)
    ensures ScanAll(lib, s, a + b) == ScanAll(lib, ScanAll(lib, s, a), b)
    decreases |a|
  {
    if a == [] {
      assert a + b == b;
    } else {
      assert (a + b)[0] == a[0] && (a + b)[1..] == a[1..] + b;
      ScanAppend(lib, ScanStep(lib, s, a[0]), a[1..], b);
    }
  }

  lemma {:induction false} ScanDone(lib: Lib, s: Scan, payloads: seq<string>)
    requires s.done
    ensures ScanAll(lib, s, payloads) == s
    decreases |payloads|
  {
    if payloads == [] {
    } else {
      ScanDone(lib, s, payloads[1..]);
    }
  }

  // ---- what the fold means: one flat pass over the payloads

  predicate IsDoneMark(payload: string) { payload == DONE }

  /** The payloads before the first `[DONE]`. */
  function Live(payloads: seq<string>): seq<string> {
    payloads[..FirstIndex(IsDoneMark, payloads)]
  }

  function ReportsError(lib: Lib): string -> bool { payload => ErrorOf(lib, payload).Some? }

  /** How many payloads come before the first upstream error. */
  function ErrorIndex(lib: Lib, payloads: seq<string>): (k: nat)
    ensures k <= |payloads|
  {
    FirstIndex(ReportsError(lib), payloads)
  }

  /** The content of a payload, unless it is empty. */
  function ContentToken(lib: Lib, payload: string): seq<string> {
    if ContentOf(lib, payload) == "" then [] else [ContentOf(lib, payload)]
  }

  function Contents(lib: Lib, payloads: seq<string>): seq<string> {
    FlatMap(p => ContentToken(lib, p), payloads)
  }

  /** The answer: contents before both the first `[DONE]` and the first error. */
  function AnswerTokens(lib: Lib, payloads: seq<string>): seq<string> {
    Contents(lib, Live(payloads)[..ErrorIndex(lib, Live(payloads))])
  }

  /** The first error before the first `[DONE]`. */
  function StreamError(lib: Lib, payloads: seq<string>): Option<HttpError> {
    var live := Live(payloads);
    var k := ErrorIndex(lib, live);
    if k < |live| then ErrorOf(lib, live[k]) else None
  }

  lemma LiveCons(lib: Lib, p: string, rest: seq<string>)
    requires p != DONE
    ensures Live([p] + rest) == [p] + Live(rest)
    ensures ErrorOf(lib, p).Some? ==>
      AnswerTokens(lib, [p] + rest) == [] && StreamError(lib, [p] + rest) == ErrorOf(lib, p)
    ensures ErrorOf(lib, p).None? ==>
      && AnswerTokens(lib, [p] + rest) == ContentToken(lib, p) + AnswerTokens(lib, rest)
      && StreamError(lib, [p] + rest) == StreamError(lib, rest)
  {
    assert ([p] + rest)[1..] == rest;
    var live := [p] + Live(rest);
    assert live[1..] == Live(rest);
    var k := ErrorIndex(lib, Live(rest));
    if ErrorOf(lib, p).None? {
      var before := Live(rest)[..k];
      assert live[..1 + k] == [p] + before;
      assert ([p] + before)[1..] == before;
    }
  }

  /** The first error stays, and nothing is added to the answer after it. */
  lemma {:induction false} ScanSticky(lib: Lib, s: Scan, payloads: seq<string>)
    requires !s.done && s.error.Some?
    ensures ScanAll(lib, s, payloads) == s.(done := DONE in payloads)
    decreases |payloads|
  {
    if payloads == [] {
    } else if payloads[0] == DONE {
      ScanDone(lib, s.(done := true), payloads[1..]);
    } else {
      ScanSticky(lib, s, payloads[1..]);
    }
  }

  /** The fold keeps the contents before the first error and the first `[DONE]`,
      and the first error before the first `[DONE]`. */
  lemma {:induction false} ScanMeaning(lib: Lib, s: Scan, payloads: seq<string>)
    requires !s.done && s.error.None?
    ensures ScanAll(lib, s, payloads)
         == Scan(DONE in payloads, s.tokens + AnswerTokens(lib, payloads), StreamError(lib, payloads))
    decreases |payloads|
  {
    if payloads == [] {
    } else if payloads[0] == DONE {
      ScanDone(lib, s.(done := true), payloads[1..]);
      assert Live(payloads) == [];
    } else {
      var p, rest := payloads[0], payloads[1..];
      assert payloads == [p] + rest;
      LiveCons(lib, p, rest);
      if ErrorOf(lib, p).Some? {
        ScanSticky(lib, s.(error := ErrorOf(lib, p)), rest);
      } else {
        var next := s.(tokens := s.tokens + ContentToken(lib, p));
        assert next == ScanStep(lib, s, p);
        ScanMeaning(lib, next, rest);
        Associate(s.tokens, ContentToken(lib, p), AnswerTokens(lib, rest));
      }
    }
  }

  // --------------------------------------------------- events at blank lines

  /** The events still to come when `pending` holds the lines of an open one. */
  function GroupsFrom(pending: seq<string>, lines: seq<string>): seq<seq<string>>
    decreases |lines|
  {
    if lines == [] then if pending == [] then [] else [pending]
    else if lines[0] != "" then GroupsFrom(pending + [lines[0]], lines[1..])
    else if pending == [] then GroupsFrom([], lines[1..])
    else [pending] + GroupsFrom([], lines[1..])
  }

  function Groups(lines: seq<string>): seq<seq<string>> {
    GroupsFrom([], lines)
  }

  function GroupPayloads(groups: seq<seq<string>>): seq<string> {
    FlatMap(LinePayloads, groups)
  }

  /** Grouping neither loses nor reorders payloads. */
  lemma {:induction false} GroupsKeepPayloads(pending: seq<string>, lines: seq<string>)
    ensures GroupPayloads(GroupsFrom(pending, lines)) == LinePayloads(pending) + LinePayloads(lines)
    decreases |lines|
  {
    if lines == [] {
      FlatMapOne(LinePayloads, pending);
      assert LinePayloads([]) == [];
    } else if lines[0] != "" {
      GroupsKeepPayloads(pending + [lines[0]], lines[1..]);
      FlatMapAppend(PayloadsOfText, pending, [lines[0]]);
      FlatMapOne(PayloadsOfText, lines[0]);
    } else {
      GroupsKeepPayloads([], lines[1..]);
    }
  }

  predicate HasDone(group: seq<string>) {
    DONE in LinePayloads(group)
  }

  /** Events up to and including the first that holds `[DONE]`. */
  function ThroughDone(groups: seq<seq<string>>): seq<seq<string>> {
    Through(HasDone, groups)
  }

  /** Nothing after the event with the first `[DONE]` is read. */
  lemma {:induction false} ScanThroughDone(lib: Lib, s: Scan, groups: seq<seq<string>>)
    requires !s.done
    ensures ScanAll(lib, s, GroupPayloads(ThroughDone(groups))) == ScanAll(lib, s, GroupPayloads(groups))
    decreases |groups|
  {
    if groups == [] {
    } else {
      var first := LinePayloads(groups[0]);
      var next := ScanAll(lib, s, first);
      ScanRelative(lib, s, first);
      ScanAppend(lib, s, first, GroupPayloads(groups[1..]));
      if HasDone(groups[0]) {
        FlatMapOne(LinePayloads, groups[0]);
        ScanDone(lib, next, GroupPayloads(groups[1..]));
      } else {
        ScanThroughDone(lib, next, groups[1..]);
        ScanAppend(lib, s, first, GroupPayloads(ThroughDone(groups[1..])));
      }
    }
  }

  /** Folding the events through the first `[DONE]` is one flat pass over the
      payloads of all lines. */
  lemma FlatPass(lib: Lib, lines: seq<string>)
    ensures var scan := ScanAll(lib, START, GroupPayloads(ThroughDone(Groups(lines))));
            && scan.tokens == AnswerTokens(lib, LinePayloads(lines))
            && scan.error == StreamError(lib, LinePayloads(lines))
  {
    ScanThroughDone(lib, START, Groups(lines));
    GroupsKeepPayloads([], lines);
    assert LinePayloads([]) + LinePayloads(lines) == LinePayloads(lines);
    ScanMeaning(lib, START, LinePayloads(lines));
    assert START.tokens + AnswerTokens(lib, LinePayloads(lines)) == AnswerTokens(lib, LinePayloads(lines));
  }

  // ------------------------------------------------------ forwarded frames

  function EventText(group: seq<string>): string {
    Join("\n", group) + "\n\n"
  }

  function EventTexts(groups: seq<seq<string>>): seq<string> {
    Map(EventText, groups)
  }

  function SseFrame(event: string): StreamFrame { Sse(event) }

  function SseFrames(events: seq<string>): seq<StreamFrame> {
    Map(SseFrame, events)
  }

  /** The frames the gateway forwards for the lines of a response. */
  function ForwardedFrames(toClient: bool, lines: seq<string>): seq<StreamFrame> {
    if toClient then SseFrames(EventTexts(ThroughDone(Groups(lines)))) else []
  }

  /** One more line of an event. */
  lemma ScanLine(lib: Lib, s: Scan, lines: seq<string>, i: nat)
    requires i < |lines|
    ensures var data := DataPayload(lines[i]);
            ScanAll(lib, s, FlatMap(DataPayload, lines[i..]))
            == ScanAll(lib, if data == [] then s else ScanStep(lib, s, data[0]), FlatMap(DataPayload, lines[i + 1..]))
  {
    var data := DataPayload(lines[i]);
    assert lines[i..][1..] == lines[i + 1..];
    var rest := FlatMap(DataPayload, lines[i + 1..]);
    ScanAppend(lib, s, data, rest);
    if data != [] {
      assert data[1..] == [];
    }
  }

  /** `_consume_stream_payload`: forward the event, then fold its lines.
      `remaining` is the caller's buffer, which the call empties. */
  method ConsumeStreamPayload(lib: Lib, eventLines: seq<string>, toClient: bool, streamError: Option<HttpError>)
    returns (remaining: seq<string>, emitted: seq<StreamFrame>, shouldStop: bool, tokens: seq<string>,
             error: Option<HttpError>)
    ensures remaining == []
    ensures emitted == if toClient then [Sse(EventText(eventLines))] else []
    ensures Scan(shouldStop, tokens, error) == ScanAll(lib, Scan(false, [], streamError), LinePayloads(eventLines))
  {
    var rawEvent := Join("\n", eventLines);
    remaining := [];
    emitted := EmitSse(toClient, rawEvent + "\n\n");
    JoinedPayloads(eventLines);
    shouldStop, tokens, error := false, [], streamError;
    var lines := SplitLines(rawEvent);
    ghost var start := Scan(false, [], streamError);
    var i := 0;
    while i < |lines|
      invariant 0 <= i <= |lines|
      invariant ScanAll(lib, Scan(false, tokens, error), FlatMap(DataPayload, lines[i..]))
             == ScanAll(lib, start, FlatMap(DataPayload, lines))
      invariant !shouldStop
    {
      var line := lines[i];
      ScanLine(lib, Scan(false, tokens, error), lines, i);
      i := i + 1;
      if !StartsWith(line, "data:") { continue; }
      var data := Strip(line[5..]);
      if data == "" { continue; }
      if data == DONE {
        ScanDone(lib, Scan(true, tokens, error), FlatMap(DataPayload, lines[i..]));
        shouldStop := true;
        return;
      }
      var chunk := lib.loads(data);
      if chunk.None? { continue; }
      var candidate := ExtractStreamError(lib, chunk.value);
      if candidate.Some? {
        if error.None? { error := candidate; }
        continue;
      }
      if error.Some? { continue; }
      var token := ExtractStreamContent(chunk.value);
      if token == "" { continue; }
      tokens := tokens + [token];
    }
  }

  /** `_stream_openai_compatible` on the response lines `aiter_lines` yields:
      the tokens yielded, the frames forwarded and the error raised at the end.
      The nested event-by-event loop computes one flat pass over all payloads. */
  method StreamOpenAiCompatible(lib: Lib, lines: seq<string>, toClient: bool)
    returns (frames: seq<StreamFrame>, tokens: seq<string>, error: Option<HttpError>)
    ensures tokens == AnswerTokens(lib, LinePayloads(lines))
    ensures error == StreamError(lib, LinePayloads(lines))
    ensures frames == ForwardedFrames(toClient, lines)
  {
    frames, tokens, error := [], [], None;
    var eventLines: seq<string> := [];
    ghost var seen: seq<seq<string>> := [];
    var stopped := false;
    var i := 0;
    while i < |lines| && !stopped
      invariant 0 <= i <= |lines|
      invariant stopped ==> eventLines == [] && seen == ThroughDone(Groups(lines))
      invariant !stopped ==> Groups(lines) == seen + GroupsFrom(eventLines, lines[i..])
      invariant !stopped ==> NoneHolds(HasDone, seen)
      invariant frames == if toClient then SseFrames(EventTexts(seen)) else []
      invariant ScanAll(lib, START, GroupPayloads(seen)) == Scan(stopped, tokens, error)
    {
      var line := lines[i];
      assert lines[i..][1..] == lines[i + 1..];
      i := i + 1;
      if line != "" {
        eventLines := eventLines + [line];
        continue;
      }
      if eventLines == [] { continue; }
      ghost var group := eventLines;
      ConsumeExtends(lib, seen, group, Scan(false, tokens, error));
      SeenExtends(seen, group, GroupsFrom([], lines[i..]));
      var emitted, produced;
      eventLines, emitted, stopped, produced, error := ConsumeStreamPayload(lib, eventLines, toClient, error);
      frames, tokens, seen := frames + emitted, tokens + produced, seen + [group];
    }
    if eventLines != [] {
      ghost var group := eventLines;
      assert lines[i..] == [];
      ConsumeExtends(lib, seen, group, Scan(false, tokens, error));
      SeenExtends(seen, group, []);
      assert [group] + [] == [group];
      var emitted, produced, ignoredStop;
      eventLines, emitted, ignoredStop, produced, error := ConsumeStreamPayload(lib, eventLines, toClient, error);
      frames, tokens, seen := frames + emitted, tokens + produced, seen + [group];
    } else if !stopped {
      assert lines[i..] == [];
      ThroughSkips(HasDone, seen, []);
      assert seen + [] == seen;
    }
    assert seen == ThroughDone(Groups(lines));
    FlatPass(lib, lines);
  }

  /** Tokens are only ever appended. */
  lemma ScanRelative(lib: Lib, now: Scan, payloads: seq<string>)
    requires !now.done
    ensures var one := ScanAll(lib, Scan(false, [], now.error), payloads);
            && ScanAll(lib, now, payloads) == Scan(one.done, now.tokens + one.tokens, one.error)
            && (one.done <==> DONE in payloads)
  {
    var clean := Scan(false, [], now.error);
    if now.error.Some? {
      ScanSticky(lib, now, payloads);
      ScanSticky(lib, clean, payloads);
      assert now.tokens + [] == now.tokens;
    } else {
      ScanMeaning(lib, now, payloads);
      ScanMeaning(lib, clean, payloads);
      assert [] + AnswerTokens(lib, payloads) == AnswerTokens(lib, payloads);
    }
  }

  /** What folding one more event adds to the invariant of the outer loop. */
  lemma ConsumeExtends(lib: Lib, seen: seq<seq<string>>, group: seq<string>, now: Scan)
    requires ScanAll(lib, START, GroupPayloads(seen)) == now && !now.done
    requires NoneHolds(HasDone, seen)
    ensures SseFrames(EventTexts(seen + [group])) == SseFrames(EventTexts(seen)) + [Sse(EventText(group))]
    ensures var one := ScanAll(lib, Scan(false, [], now.error), LinePayloads(group));
            && ScanAll(lib, START, GroupPayloads(seen + [group])) == Scan(one.done, now.tokens + one.tokens, one.error)
            && (one.done <==> HasDone(group))
  {
    FlatMapAppend(LinePayloads, seen, [group]);
    FlatMapOne(LinePayloads, group);
    ScanAppend(lib, START, GroupPayloads(seen), LinePayloads(group));
    ScanRelative(lib, now, LinePayloads(group));
  }

  lemma SeenExtends(seen: seq<seq<string>>, group: seq<string>, rest: seq<seq<string>>)
    requires NoneHolds(HasDone, seen)
    ensures HasDone(group) || rest == [] ==> ThroughDone(seen + ([group] + rest)) == seen + [group]
    ensures (seen + [group]) + rest == seen + ([group] + rest)
  {
    ThroughSkips(HasDone, seen, [group] + rest);
    assert ([group] + rest)[1..] == rest;
  }

  /** Blank lines never matter to the tokens or the error. */
  lemma BlankLinesIrrelevant(a: seq<string>, b: seq<string>)
    ensures LinePayloads(a + [""] + b) == LinePayloads(a + b)
  {
    FlatMapAppend(PayloadsOfText, a + [""], b);
    FlatMapAppend(PayloadsOfText, a, [""]);
    FlatMapAppend(PayloadsOfText, a, b);
    FlatMapOne(PayloadsOfText, "");
  }

  // ------------------------------------------------------ framing round trip

  ghost predicate CleanGroup(group: seq<string>) {
    group != [] && forall k :: 0 <= k < |group| ==> group[k] != "" && BreakFree(group[k])
  }

  ghost predicate CleanGroups(groups: seq<seq<string>>) {
    forall i :: 0 <= i < |groups| ==> CleanGroup(groups[i])
  }

  /** The first line of an event, and what follows it on the wire. */
  lemma EventTextCons(line: string, group: seq<string>, rest: string)
    requires group != []
    ensures EventText([line] + group) + rest == line + "\n" + (EventText(group) + rest)
  {
    assert ([line] + group)[1..] == group;
    var more := Join("\n", group);
    assert (line + "\n" + more) + "\n\n" + rest == line + "\n" + ((more + "\n\n") + rest);
  }

  lemma SplitOneLineEvent(line: string, rest: string)
    requires BreakFree(line)
    ensures SplitLines(EventText([line]) + rest) == [line] + [""] + SplitLines(rest)
  {
    assert line + "\n\n" + rest == line + "\n" + ("" + "\n" + rest);
    SplitFirstLine(line, "" + "\n" + rest);
    SplitFirstLine("", rest);
    Associate([line], [""], SplitLines(rest));
  }

  lemma {:induction false} SplitEventText(group: seq<string>, rest: string)
    requires CleanGroup(group)
    ensures SplitLines(EventText(group) + rest) == group + [""] + SplitLines(rest)
  {
    var line, more := group[0], group[1..];
    assert group == [line] + more;
    if more == [] {
      SplitOneLineEvent(line, rest);
    } else {
      SplitEventText(more, rest);
      EventTextCons(line, more, rest);
      SplitFirstLine(line, EventText(more) + rest);
      Associate([line], more + [""], SplitLines(rest));
      Associate([line], more, [""]);
    }
  }

  lemma {:induction false} RegroupOne(pending: seq<string>, group: seq<string>, rest: seq<string>)
    requires pending + group != [] && forall k :: 0 <= k < |group| ==> group[k] != ""
    ensures GroupsFrom(pending, group + [""] + rest) == [pending + group] + GroupsFrom([], rest)
    decreases |group|
  {
    var lines := group + [""] + rest;
    if group == [] {
      assert lines[1..] == rest && pending + group == pending;
    } else {
      assert lines[1..] == group[1..] + [""] + rest;
      assert (pending + [group[0]]) + group[1..] == pending + group;
      RegroupOne(pending + [group[0]], group[1..], rest);
    }
  }

  lemma {:induction false} RegroupWire(groups: seq<seq<string>>)
    requires CleanGroups(groups)
    ensures Groups(SplitLines(Flatten(EventTexts(groups)))) == groups
  {
    if groups == [] {
    } else {
      RegroupWire(groups[1..]);
      var rest := Flatten(EventTexts(groups[1..]));
      FlattenCons(EventText(groups[0]), EventTexts(groups[1..]));
      assert EventTexts(groups) == [EventText(groups[0])] + EventTexts(groups[1..]);
      SplitEventText(groups[0], rest);
      RegroupOne([], groups[0], SplitLines(rest));
      assert [] + groups[0] == groups[0];
    }
  }

  lemma {:induction false} GroupsAreClean(pending: seq<string>, lines: seq<string>)
    requires forall k :: 0 <= k < |lines| ==> BreakFree(lines[k])
    requires pending == [] || CleanGroup(pending)
    ensures CleanGroups(GroupsFrom(pending, lines))
    ensures Flatten(GroupsFrom(pending, lines)) == pending + NonBlank(lines)
    decreases |lines|
  {
    if lines == [] {
      FlatMapOne<seq<string>, string>(Same, pending);
    } else if lines[0] != "" {
      GroupsAreClean(pending + [lines[0]], lines[1..]);
    } else {
      GroupsAreClean([], lines[1..]);
    }
  }

  /** A client that splits what it received into lines and regroups them at
      blank lines gets exactly the forwarded events, and these are the input's
      non-blank lines, once each and in order, through the event with the first
      `[DONE]`. */
  lemma FramingRoundTrip(lines: seq<string>)
    requires forall k :: 0 <= k < |lines| ==> BreakFree(lines[k])
    ensures var sent := ThroughDone(Groups(lines));
            && Groups(SplitLines(Flatten(EventTexts(sent)))) == sent
            && Flatten(sent) <= NonBlank(lines)
            && (Flatten(sent) != NonBlank(lines) ==> sent != [] && HasDone(sent[|sent| - 1]))
            && (forall i :: 0 <= i < |sent| - 1 ==> !HasDone(sent[i]))
  {
    var groups := Groups(lines);
    var sent := ThroughDone(groups);
    GroupsAreClean([], lines);
    ThroughIsPrefix(HasDone, groups);
    assert groups == sent + groups[|sent|..];
    FlattenAppend(sent, groups[|sent|..]);
    RegroupWire(sent);
    assert [] + NonBlank(lines) == NonBlank(lines);
  }

  /** For any response text at all, since reading it as lines leaves no break
      inside a line. */
  lemma FramingRoundTripOfText(body: string)
    ensures var sent := ThroughDone(Groups(SplitLines(body)));
            Groups(SplitLines(Flatten(EventTexts(sent)))) == sent
  {
    SplitLinesBreakFree(body);
    FramingRoundTrip(SplitLines(body));
  }
}
