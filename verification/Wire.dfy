/** The text on the wire: what a client that splits it into lines and reads
    every `data:` payload makes of it. */
module Wire {
  import opened Text
  import opened Json
  import opened Gateway
  import opened Streaming
  import opened EndToEnd

  /** The text of a payload that one `data:` line can bring. */
  ghost predicate OneLinePayload(p: string) {
    p != "" && BreakFree(p) && Strip(p) == p
  }

  function DataLine(p: string): string { "data: " + p }

  lemma DataLineReads(p: string)
    requires OneLinePayload(p)
    ensures BreakFree(DataLine(p)) && DataLine(p) != ""
    ensures DataPayload(DataLine(p)) == [p] && PayloadsOfText(DataLine(p)) == [p]
    ensures forall more :: FirstDataLine([DataLine(p)] + more) == Some(p)
  {
    var line := DataLine(p);
    assert line[5..] == " " + p && (" " + p)[1..] == p;
    assert Strip(" " + p) == Strip(p);
    assert line[..|line|] == line && BreakFree(line);
    FirstIndexUnique(IsLineBreak, line, |line|);
    FlatMapOne(DataPayload, line);
  }

  lemma DoneIsOneLine()
    ensures OneLinePayload(DONE)
  {
  }

  // ----------------------------------------------- payloads that are read back

  lemma {:induction false} StripKeepsLine(s: string)
    requires BreakFree(s)
    ensures BreakFree(Strip(s))
    decreases |s|
  {
    if s == "" {
    } else if IsSpace(s[0]) {
      StripKeepsLine(s[1..]);
    } else if IsSpace(s[|s| - 1]) {
      StripKeepsLine(s[..|s| - 1]);
    }
  }

  lemma {:induction false} PayloadsAreLines(lines: seq<string>, p: string)
    requires (forall k :: 0 <= k < |lines| ==> BreakFree(lines[k])) && p in FlatMap(DataPayload, lines)
    ensures BreakFree(p)
  {
    if lines == [] {
    } else if p in DataPayload(lines[0]) {
      StripKeepsLine(lines[0][5..]);
    } else {
      PayloadsAreLines(lines[1..], p);
    }
  }

  /** A client that splits lines reads a payload back exactly when it holds no line
      break. */
  lemma ReadBackIff(p: string)
    requires p != "" && Strip(p) == p
    ensures PayloadsOfText(DataLine(p) + "\n\n") == [p] <==> BreakFree(p)
  {
    if BreakFree(p) {
      PrintedLine(p);
    } else {
      SplitLinesBreakFree(DataLine(p) + "\n\n");
      if p in PayloadsOfText(DataLine(p) + "\n\n") {
        PayloadsAreLines(SplitLines(DataLine(p) + "\n\n"), p);
      }
    }
  }

  // -------------------------------------------------------- printed content chunks

  const HEX := "0123456789abcdef"

  /** What `json.dumps` without ASCII escapes makes of a character. */
  function Escaped(c: char): string {
    if c == '"' then "\\\""
    else if c == '\\' then "\\\\"
    else if c == '\n' then "\\n"
    else if c == '\r' then "\\r"
    else if c == '\t' then "\\t"
    else if c == '\U{0008}' then "\\b"
    else if c == '\U{000C}' then "\\f"
    else if c < ' ' then "\\u00" + [HEX[c as int / 16], HEX[c as int % 16]]
    else [c]
  }

  function Quoted(s: string): string {
    "\"" + FlatMap(Escaped, s) + "\""
  }

  /** The line breaks that JSON text may hold as they are. */
  predicate IsPlainBreak(c: char) {
    c == '\U{0085}' || c == '\U{2028}' || c == '\U{2029}'
  }

  lemma EscapedBreakFree(c: char)
    ensures BreakFree(Escaped(c)) <==> !IsPlainBreak(c)
  {
    assert |HEX| == 16;
    assert forall i :: 0 <= i < 16 ==> !IsLineBreak(HEX[i]);
    if IsPlainBreak(c) {
      assert IsLineBreak(Escaped(c)[0]);
    }
  }

  lemma BreakFreeAppend(a: string, b: string)
    ensures BreakFree(a + b) <==> BreakFree(a) && BreakFree(b)
  {
    assert forall i :: 0 <= i < |a| ==> (a + b)[i] == a[i];
    assert forall i :: 0 <= i < |b| ==> (a + b)[|a| + i] == b[i];
  }

  lemma {:induction false} QuotedBreakFree(s: string)
    ensures BreakFree(FlatMap(Escaped, s)) <==> NoneHolds(IsPlainBreak, s)
  {
    if s == "" {
    } else {
      QuotedBreakFree(s[1..]);
      EscapedBreakFree(s[0]);
      BreakFreeAppend(Escaped(s[0]), FlatMap(Escaped, s[1..]));
      assert forall i :: 0 <= i < |s| - 1 ==> s[1..][i] == s[i + 1];
    }
  }

  function SignedDecimal(n: int): string {
    if n < 0 then "-" + Decimal(-n) else Decimal(n)
  }

  lemma {:induction false} DecimalBreakFree(n: nat)
    ensures BreakFree(Decimal(n))
  {
    if n < 10 {
    } else {
      DecimalBreakFree(n / 10);
      BreakFreeAppend(Decimal(n / 10), [('0' as int + n % 10) as char]);
    }
  }

  function PrintedUser(userId: Option<string>): string {
    match userId
    case None => "null"
    case Some(id) => Quoted(id)
  }

  /** The members of a printed object: a key, and a value that is printed already. */
  function PrintedFields(fields: seq<(string, string)>): string {
    if fields == [] then ""
    else
      "\"" + fields[0].0 + "\": " + fields[0].1
      + (if |fields| == 1 then "" else ", " + PrintedFields(fields[1..]))
  }

  function PrintedObject(fields: seq<(string, string)>): string {
    "{" + PrintedFields(fields) + "}"
  }

  function PrintedChoice(content: string): string {
    PrintedObject([("index", "0"), ("delta", PrintedObject([("content", Quoted(content))])), ("finish_reason", "null")])
  }

  /** A content chunk as the runtime prints it. */
  function PrintedContent(meta: Meta, content: string): string {
    PrintedObject([
      ("id", Quoted(meta.completionId)), ("object", Quoted("chat.completion.chunk")),
      ("created", SignedDecimal(meta.created)), ("model", Quoted(meta.workflow)),
      ("choices", "[" + PrintedChoice(content) + "]"),
      ("session_id", Quoted(meta.sessionId)), ("user_id", PrintedUser(meta.userId))])
  }

  ghost predicate FieldBreakFree(field: (string, string)) {
    BreakFree(field.0) && BreakFree(field.1)
  }

  ghost predicate AllBreakFree(fields: seq<(string, string)>) {
    forall i :: 0 <= i < |fields| ==> FieldBreakFree(fields[i])
  }

  lemma OneFieldBreakFree(key: string, value: string)
    ensures BreakFree("\"" + key + "\": " + value) <==> BreakFree(key) && BreakFree(value)
  {
    BreakFreeAppend("\"", key);
    BreakFreeAppend("\"" + key, "\": ");
    BreakFreeAppend("\"" + key + "\": ", value);
  }

  lemma {:induction false} FieldsBreakFree(fields: seq<(string, string)>)
    ensures BreakFree(PrintedFields(fields)) <==> AllBreakFree(fields)
  {
    if fields == [] {
    } else {
      var first, rest := "\"" + fields[0].0 + "\": " + fields[0].1, PrintedFields(fields[1..]);
      OneFieldBreakFree(fields[0].0, fields[0].1);
      FieldsBreakFree(fields[1..]);
      BreakFreeAppend(", ", rest);
      BreakFreeAppend(first, ", " + rest);
      AllBreakFreeCons(fields[0], fields[1..]);
      assert fields == [fields[0]] + fields[1..];
      assert |fields| == 1 ==> first + "" == first;
    }
  }

  lemma AllBreakFreeCons(field: (string, string), rest: seq<(string, string)>)
    ensures AllBreakFree([field] + rest) <==> FieldBreakFree(field) && AllBreakFree(rest)
  {
    var all := [field] + rest;
    assert all[0] == field && forall i :: 0 <= i < |rest| ==> all[i + 1] == rest[i];
    if AllBreakFree(all) {
      forall i | 0 <= i < |rest| ensures FieldBreakFree(rest[i]) {
        assert FieldBreakFree(all[i + 1]);
      }
    }
  }

  lemma ObjectBreakFree(fields: seq<(string, string)>)
    ensures BreakFree(PrintedObject(fields)) <==> AllBreakFree(fields)
  {
    FieldsBreakFree(fields);
    BreakFreeAppend("{", PrintedFields(fields));
    BreakFreeAppend("{" + PrintedFields(fields), "}");
  }

  lemma OneField(a: (string, string))
    ensures AllBreakFree([a]) <==> FieldBreakFree(a)
  {
    assert [a][0] == a;
  }

  lemma ThreeFields(a: (string, string), b: (string, string), c: (string, string))
    ensures AllBreakFree([a, b, c]) <==> FieldBreakFree(a) && FieldBreakFree(b) && FieldBreakFree(c)
  {
    var all := [a, b, c];
    assert all[0] == a && all[1] == b && all[2] == c;
  }

  lemma SevenFields(a: (string, string), b: (string, string), c: (string, string), d: (string, string),
                    e: (string, string), f: (string, string), g: (string, string))
    ensures AllBreakFree([a, b, c, d, e, f, g])
       <==> FieldBreakFree(a) && FieldBreakFree(b) && FieldBreakFree(c) && FieldBreakFree(d)
            && FieldBreakFree(e) && FieldBreakFree(f) && FieldBreakFree(g)
  {
    var all := [a, b, c, d, e, f, g];
    assert all[0] == a && all[1] == b && all[2] == c && all[3] == d && all[4] == e && all[5] == f && all[6] == g;
  }

  lemma QuoteBreakFree(s: string)
    ensures BreakFree(Quoted(s)) <==> NoneHolds(IsPlainBreak, s)
  {
    QuotedBreakFree(s);
    BreakFreeAppend("\"", FlatMap(Escaped, s));
    BreakFreeAppend("\"" + FlatMap(Escaped, s), "\"");
  }

  /** Nothing in the meta data of the stream breaks a line. */
  ghost predicate PlainMeta(meta: Meta) {
    && NoneHolds(IsPlainBreak, meta.completionId) && NoneHolds(IsPlainBreak, meta.workflow)
    && NoneHolds(IsPlainBreak, meta.sessionId) && NoneHolds(IsPlainBreak, meta.userId.GetOr(""))
  }

  lemma ChoiceBreakFree(content: string)
    ensures BreakFree(PrintedChoice(content)) <==> NoneHolds(IsPlainBreak, content)
  {
    var delta := ("content", Quoted(content));
    var index, choice, reason := ("index", "0"), ("delta", PrintedObject([delta])), ("finish_reason", "null");
    QuoteBreakFree(content);
    OneField(delta);
    ObjectBreakFree([delta]);
    ThreeFields(index, choice, reason);
    ObjectBreakFree([index, choice, reason]);
  }

  lemma Keys()
    ensures BreakFree("id") && BreakFree("object") && BreakFree("created") && BreakFree("model")
    ensures BreakFree("choices") && BreakFree("session_id") && BreakFree("user_id")
  {
  }

  lemma ObjectKind()
    ensures BreakFree(Quoted("chat.completion.chunk"))
  {
    var kind := "chat.completion.chunk";
    assert |kind| == 21;
    assert NoneHolds(IsPlainBreak, kind);
    QuoteBreakFree(kind);
  }

  lemma ContentBreakFree(meta: Meta, content: string)
    ensures BreakFree(PrintedContent(meta, content)) <==> PlainMeta(meta) && NoneHolds(IsPlainBreak, content)
  {
    FixedPartsBreakFree(meta.created);
    MetaBreakFree(meta);
    ChoicesBreakFree(content);
    SevenFieldObject("id", Quoted(meta.completionId), "object", Quoted("chat.completion.chunk"),
                     "created", SignedDecimal(meta.created), "model", Quoted(meta.workflow),
                     "choices", "[" + PrintedChoice(content) + "]", "session_id", Quoted(meta.sessionId),
                     "user_id", PrintedUser(meta.userId));
  }

  lemma FixedPartsBreakFree(created: int)
    ensures BreakFree("id") && BreakFree("object") && BreakFree("created") && BreakFree("model")
    ensures BreakFree("choices") && BreakFree("session_id") && BreakFree("user_id")
    ensures BreakFree(Quoted("chat.completion.chunk")) && BreakFree(SignedDecimal(created))
  {
    Keys();
    ObjectKind();
    SignedDecimalBreakFree(created);
  }

  lemma ChoicesBreakFree(content: string)
    ensures BreakFree("[" + PrintedChoice(content) + "]") <==> NoneHolds(IsPlainBreak, content)
  {
    ChoiceBreakFree(content);
    BreakFreeAppend("[", PrintedChoice(content));
    BreakFreeAppend("[" + PrintedChoice(content), "]");
  }

  lemma MetaBreakFree(meta: Meta)
    ensures BreakFree(Quoted(meta.completionId)) && BreakFree(Quoted(meta.workflow))
         && BreakFree(Quoted(meta.sessionId)) && BreakFree(PrintedUser(meta.userId))
       <==> PlainMeta(meta)
  {
    QuoteBreakFree(meta.completionId);
    QuoteBreakFree(meta.workflow);
    QuoteBreakFree(meta.sessionId);
    UserBreakFree(meta.userId);
  }

  lemma UserBreakFree(userId: Option<string>)
    ensures BreakFree(PrintedUser(userId)) <==> NoneHolds(IsPlainBreak, userId.GetOr(""))
  {
    QuoteBreakFree(userId.GetOr(""));
  }

  lemma SevenFieldObject(k1: string, v1: string, k2: string, v2: string, k3: string, v3: string, k4: string, v4: string,
                         k5: string, v5: string, k6: string, v6: string, k7: string, v7: string)
    requires BreakFree(k1) && BreakFree(k2) && BreakFree(k3) && BreakFree(k4)
    requires BreakFree(k5) && BreakFree(k6) && BreakFree(k7)
    ensures BreakFree(PrintedObject([(k1, v1), (k2, v2), (k3, v3), (k4, v4), (k5, v5), (k6, v6), (k7, v7)]))
       <==> BreakFree(v1) && BreakFree(v2) && BreakFree(v3) && BreakFree(v4)
            && BreakFree(v5) && BreakFree(v6) && BreakFree(v7)
  {
    SevenFields((k1, v1), (k2, v2), (k3, v3), (k4, v4), (k5, v5), (k6, v6), (k7, v7));
    ObjectBreakFree([(k1, v1), (k2, v2), (k3, v3), (k4, v4), (k5, v5), (k6, v6), (k7, v7)]);
  }

  lemma SignedDecimalBreakFree(n: int)
    ensures BreakFree(SignedDecimal(n))
  {
    if n < 0 {
      DecimalBreakFree(-n);
      BreakFreeAppend("-", Decimal(-n));
    } else {
      DecimalBreakFree(n);
    }
  }

  /** Which content chunks a client that splits lines reads back: those without
      U+0085, U+2028 and U+2029 in the content, and in the ids sent with it. */
  lemma ContentReadBackIff(meta: Meta, content: string)
    ensures PayloadsOfText(DataLine(PrintedContent(meta, content)) + "\n\n") == [PrintedContent(meta, content)]
       <==> PlainMeta(meta) && NoneHolds(IsPlainBreak, content)
  {
    ContentBreakFree(meta, content);
    ContentIsStripped(meta, content);
    ReadBackIff(PrintedContent(meta, content));
  }

  lemma ContentIsStripped(meta: Meta, content: string)
    ensures PrintedContent(meta, content) != "" && Strip(PrintedContent(meta, content)) == PrintedContent(meta, content)
  {
    ObjectIsStripped([
      ("id", Quoted(meta.completionId)), ("object", Quoted("chat.completion.chunk")),
      ("created", SignedDecimal(meta.created)), ("model", Quoted(meta.workflow)),
      ("choices", "[" + PrintedChoice(content) + "]"),
      ("session_id", Quoted(meta.sessionId)), ("user_id", PrintedUser(meta.userId))]);
  }

  lemma ObjectIsStripped(fields: seq<(string, string)>)
    ensures PrintedObject(fields) != "" && Strip(PrintedObject(fields)) == PrintedObject(fields)
  {
    var text := PrintedObject(fields);
    assert text[0] == '{' && text[|text| - 1] == '}';
  }

  /** What is sent for an output, with `json.dumps` as a parameter. */
  function Printed(dumps: Json -> string, o: Output): string {
    match o
    case Raw(event) => event
    case Chunk(json) => DataLine(dumps(json)) + "\n\n"
    case Done => DataLine(DONE) + "\n\n"
  }

  /** The lines the runtime writes for its own chunks and at the end of a tail. */
  lemma PrintedLines(dumps: Json -> string, json: Json)
    ensures Printed(dumps, Chunk(json)) == "data: " + dumps(json) + "\n\n" && Printed(dumps, Done) == "data: [DONE]\n\n"
  {
    assert "data: " + "[DONE]" + "\n\n" == "data: [DONE]\n\n";
  }

  function WireText(dumps: Json -> string, out: seq<Output>): string {
    FlatMap(o => Printed(dumps, o), out)
  }

  /** Chunks are printed on one line and parse back; `ContentReadBackIff` says for
      which content the first holds. */
  ghost predicate PrintsBack(lib: Lib, dumps: Json -> string, json: Json) {
    OneLinePayload(dumps(json)) && dumps(json) != DONE && lib.loads(dumps(json)) == Some(json)
  }

  ghost predicate ChunksPrintBack(lib: Lib, dumps: Json -> string, out: seq<Output>) {
    forall json :: Chunk(json) in out ==> PrintsBack(lib, dumps, json)
  }

  predicate EndsInNewline(s: string) { s != "" && s[|s| - 1] == '\n' }

  ghost predicate ReadsBack(lib: Lib, dumps: Json -> string, o: Output) {
    match o
    case Raw(event) => EndsInNewline(event)
    case Chunk(json) => PrintsBack(lib, dumps, json)
    case Done => true
  }

  lemma PayloadsAfterNewline(text: string, rest: string)
    requires EndsInNewline(text)
    ensures PayloadsOfText(text + rest) == PayloadsOfText(text) + PayloadsOfText(rest)
  {
    var line := text[..|text| - 1];
    assert text == line + "\n" + "";
    assert text + rest == line + "\n" + rest;
    PayloadsAcrossNewline(line, rest);
    PayloadsAcrossNewline(line, "");
    assert PayloadsOfText("") == [];
    assert PayloadsOfText(line) + [] == PayloadsOfText(line);
  }

  lemma PrintedLine(p: string)
    requires OneLinePayload(p)
    ensures PayloadsOfText(DataLine(p) + "\n\n") == [p] && EndsInNewline(DataLine(p) + "\n\n")
  {
    DataLineReads(p);
    var line := DataLine(p);
    assert line + "\n\n" == (line + "\n" + "") + "\n" + "";
    PayloadsAcrossNewline(line + "\n" + "", "");
    PayloadsAcrossNewline(line, "");
    assert PayloadsOfText("") == [];
  }

  lemma PrintedReads(lib: Lib, dumps: Json -> string, s: Scan, o: Output)
    requires ReadsBack(lib, dumps, o)
    ensures ScanAll(lib, s, PayloadsOfText(Printed(dumps, o))) == ReadOutput(lib, s, o)
    ensures EndsInNewline(Printed(dumps, o))
  {
    DoneIsOneLine();
    if !o.Raw? {
      var p := if o.Chunk? then dumps(o.json) else DONE;
      PrintedLine(p);
      assert [p][1..] == [];
      assert ScanAll(lib, s, [p]) == ScanAll(lib, ScanStep(lib, s, p), []);
    }
  }

  /** Reading the concatenated text gives what reading the outputs one by one
      gives, in whatever order they come. */
  lemma {:induction false} ReadWire(lib: Lib, dumps: Json -> string, s: Scan, out: seq<Output>)
    requires forall i :: 0 <= i < |out| ==> ReadsBack(lib, dumps, out[i])
    ensures ScanAll(lib, s, PayloadsOfText(WireText(dumps, out))) == ReadAll(lib, s, out)
    decreases |out|
  {
    if out == [] {
      assert PayloadsOfText("") == [];
    } else {
      var first, rest := Printed(dumps, out[0]), WireText(dumps, out[1..]);
      PrintedReads(lib, dumps, s, out[0]);
      PayloadsAfterNewline(first, rest);
      ScanAppend(lib, s, PayloadsOfText(first), PayloadsOfText(rest));
      ReadWire(lib, dumps, ReadOutput(lib, s, out[0]), out[1..]);
    }
  }

  /** An upstream event in the output is one of the frames. */
  lemma {:induction false} RawIsFrame(env: Env, frames: seq<StreamFrame>, o: Output)
    requires o.Raw? && (o in Body(env, frames) || o in Terminals(env, frames))
    ensures Sse(o.event) in frames
  {
    if frames == [] {
    } else if o !in RenderFrame(env, frames[0]) && o !in TerminalOf(env, frames[0]) {
      RawIsFrame(env, frames[1..], o);
    }
  }

  /** For every run on a provider's events, finished or cut short, a client that
      splits the sent text reads what `ReadAll` reads from the outputs. */
  lemma WireOfRun(env: Env, dumps: Json -> string, lines: seq<string>, schedule: seq<Action>)
    requires Legal(env, Start(ForwardedFrames(true, lines)), schedule)
    requires ChunksPrintBack(env.lib, dumps, Yielded(env, ForwardedFrames(true, lines), schedule))
    ensures var out := Yielded(env, ForwardedFrames(true, lines), schedule);
            ScanAll(env.lib, START, PayloadsOfText(WireText(dumps, out))) == ReadAll(env.lib, START, out)
  {
    var frames := ForwardedFrames(true, lines);
    var out := Yielded(env, frames, schedule);
    ScheduleIndependence(env, frames, schedule);
    forall i | 0 <= i < |out| ensures ReadsBack(env.lib, dumps, out[i]) {
      var o := out[i];
      assert o == Expected(env, frames)[i];
      if o.Raw? {
        RawIsFrame(env, frames, o);
        var k :| 0 <= k < |frames| && frames[k] == Sse(o.event);
        assert EndsInNewline(EventText(ThroughDone(Groups(lines))[k]));
      }
    }
    ReadWire(env.lib, dumps, START, out);
  }
}
