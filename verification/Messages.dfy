/** Request messages, the text read from them, and the usage counters. */
module Messages {
  import opened Text
  import opened Json

  datatype Content = Text(text: string) | Parts(items: seq<map<string, Json>>) | NoContent

  datatype ReqMessage = ReqMessage(role: string, content: Content, name: Option<string>, toolCallId: Option<string>)

  /** The text of one content part: only parts of type "text" have one. */
  function PartText(item: map<string, Json>): string {
    var part := JObj(item);
    if part.Get("type") == JStr("text") && part.Get("text").JStr? then part.Get("text").s else ""
  }

  function TextOf(content: Content): string {
    match content
    case Text(text) => text
    case Parts(items) => FlatMap(PartText, items)
    case NoContent => ""
  }

  method MessageText(content: Content) returns (text: string)
    ensures text == TextOf(content)
  {
    match content
    case Text(t) => return t;
    case NoContent => return "";
    case Parts(items) =>
      text := "";
      for i := 0 to |items|
        invariant text == FlatMap(PartText, items[..i])
      {
        assert items[..i + 1] == items[..i] + [items[i]];
        FlatMapSnoc(PartText, items[..i], items[i]);
        var part := JObj(items[i]);
        if part.Get("type") != JStr("text") { continue; }
        if part.Get("text").JStr? {
          text := text + part.Get("text").s;
        }
      }
      assert items[..|items|] == items;
  }

  function NormalRole(role: string): string {
    Lower(Strip(role))
  }

  predicate ToolOrUser(role: string) {
    NormalRole(role) == "tool" || NormalRole(role) == "user"
  }

  /** A message whose text `_last_tool_or_user_text` accepts. */
  predicate HasInput(m: ReqMessage) {
    ToolOrUser(m.role) && TextOf(m.content) != ""
  }

  /** `_last_tool_or_user_text`: the last accepted text, if there is one. */
  method LastToolOrUserText(messages: seq<ReqMessage>) returns (r: Option<string>)
    ensures r.None? ==> forall i :: 0 <= i < |messages| ==> !HasInput(messages[i])
    ensures r.Some? ==> exists i :: 0 <= i < |messages| && HasInput(messages[i])
                          && r.value == TextOf(messages[i].content)
                          && forall j :: i < j < |messages| ==> !HasInput(messages[j])
    ensures r.GetOr("") == LastInput(messages)
  {
    var i := |messages|;
    assert messages[..i] == messages;
    while i > 0
      invariant 0 <= i <= |messages|
      invariant forall j :: i <= j < |messages| ==> !HasInput(messages[j])
      invariant LastInput(messages) == LastInput(messages[..i])
    {
      i := i - 1;
      assert messages[..i + 1][..i] == messages[..i];
      if !ToolOrUser(messages[i].role) { continue; }
      var content := MessageText(messages[i].content);
      if content != "" { return Some(content); }
    }
    return None;
  }

  function LastInput(messages: seq<ReqMessage>): string {
    if messages == [] then ""
    else
      var last := messages[|messages| - 1];
      if HasInput(last) then TextOf(last.content) else LastInput(messages[..|messages| - 1])
  }

  // ------------------------------------------------ the dumped form of a list

  function OptionalJson(value: Option<string>): Json {
    match value case None => JNull case Some(s) => JStr(s)
  }

  function ObjJson(fields: map<string, Json>): Json { JObj(fields) }

  function ContentJson(content: Content): Json {
    match content
    case Text(text) => JStr(text)
    case Parts(items) => JArr(Map(ObjJson, items))
    case NoContent => JNull
  }

  /** `message.model_dump(mode="python")`. */
  function Dump(m: ReqMessage): Json {
    JObj(map["role" := JStr(m.role), "content" := ContentJson(m.content),
             "name" := OptionalJson(m.name), "tool_call_id" := OptionalJson(m.toolCallId)])
  }

  function PartTextJson(item: Json): string {
    if item.JObj? then PartText(item.fields) else ""
  }

  /** `_message_text` of the workflows, on any parsed value. */
  function JsonText(content: Json): string {
    match content
    case JStr(s) => s
    case JArr(items) => FlatMap(PartTextJson, items)
    case _ => ""
  }

  /** `last_text_from_input_messages` with the default roles. A role that is not
      a string prints as none of the role names. */
  method LastTextFromInputMessages(messages: Json) returns (r: string)
    ensures !messages.JArr? ==> r == ""
    ensures messages.JArr? ==> r == LastInputJson(messages.items)
  {
    if !messages.JArr? { return ""; }
    var i := |messages.items|;
    assert messages.items[..i] == messages.items;
    while i > 0
      invariant 0 <= i <= |messages.items|
      invariant LastInputJson(messages.items) == LastInputJson(messages.items[..i])
    {
      i := i - 1;
      assert messages.items[..i + 1][..i] == messages.items[..i];
      var message := messages.items[i];
      if !message.JObj? { continue; }
      if !message.Get("role").JStr? || !ToolOrUser(message.Get("role").s) { continue; }
      var content := JsonText(message.Get("content"));
      if content != "" { return content; }
    }
    return "";
  }

  function LastInputJson(items: seq<Json>): string {
    if items == [] then ""
    else
      var last := items[|items| - 1];
      if last.JObj? && last.Get("role").JStr? && ToolOrUser(last.Get("role").s) && JsonText(last.Get("content")) != ""
      then JsonText(last.Get("content"))
      else LastInputJson(items[..|items| - 1])
  }

  lemma {:induction false} PartsAgree(items: seq<map<string, Json>>)
    ensures FlatMap(PartTextJson, Map(ObjJson, items)) == FlatMap(PartText, items)
  {
    if items == [] {
    } else {
      PartsAgree(items[1..]);
      assert Map(ObjJson, items)[1..] == Map(ObjJson, items[1..]);
    }
  }

  /** The workflow nodes read from the dumped request the text that the runtime
      reads from the request itself. */
  lemma {:induction false} ExtractorsAgree(messages: seq<ReqMessage>)
    ensures LastInputJson(Map(Dump, messages)) == LastInput(messages)
  {
    if messages == [] {
    } else {
      var n := |messages| - 1;
      ExtractorsAgree(messages[..n]);
      assert Map(Dump, messages)[..n] == Map(Dump, messages[..n]);
      DumpFields(messages[n]);
      ContentAgrees(messages[n].content);
    }
  }

  lemma ContentAgrees(content: Content)
    ensures JsonText(ContentJson(content)) == TextOf(content)
  {
    if content.Parts? {
      PartsAgree(content.items);
    }
  }

  /** The dumped message has the four fields of the request message. */
  lemma DumpFields(m: ReqMessage)
    ensures Dump(m).Get("role") == JStr(m.role) && Dump(m).Get("content") == ContentJson(m.content)
    ensures Dump(m).fields.Keys == {"role", "content", "name", "tool_call_id"}
    ensures m.content.NoContent? ==> Dump(m).Get("content") == JNull
    ensures m.content.Text? ==> Dump(m).Get("content") == JStr(m.content.text)
    ensures m.content.Parts? ==>
      var content := Dump(m).Get("content");
      && content.JArr? && |content.items| == |m.content.items|
      && forall i :: 0 <= i < |m.content.items| ==> content.items[i] == JObj(m.content.items[i])
    ensures Dump(m).Get("name") == (if m.name.None? then JNull else JStr(m.name.value))
    ensures Dump(m).Get("tool_call_id") == (if m.toolCallId.None? then JNull else JStr(m.toolCallId.value))
  {
    assert "role"[0] != "name"[0] && "content"[0] != "name"[0] && "tool_call_id"[0] != "name"[0];
  }

  // -------------------------------------------------------------------- usage

  /** The texts of all messages, one after the other. */
  function AllText(messages: seq<ReqMessage>): string {
    if messages == [] then "" else TextOf(messages[0].content) + AllText(messages[1..])
  }

  /** `build_usage`: the prompt counter is the total length of the texts the
      extractors read, part by part. */
  method BuildUsage(messages: seq<ReqMessage>, outputText: Option<string>)
    returns (promptTokens: nat, completionTokens: nat, totalTokens: nat)
    ensures promptTokens == |AllText(messages)|
    ensures completionTokens == |outputText.GetOr("")| && totalTokens == promptTokens + completionTokens
  {
    promptTokens := 0;
    for i := 0 to |messages|
      invariant promptTokens + |AllText(messages[i..])| == |AllText(messages)|
    {
      assert messages[i..][1..] == messages[i + 1..];
      match messages[i].content
      case Text(text) => promptTokens := promptTokens + |text|;
      case NoContent =>
      case Parts(items) =>
        var before := promptTokens;
        for k := 0 to |items|
          invariant promptTokens + |FlatMap(PartText, items[k..])| == before + |FlatMap(PartText, items)|
        {
          assert items[k..][1..] == items[k + 1..];
          var part := JObj(items[k]);
          if part.Get("type") == JStr("text") && part.Get("text").JStr? {
            promptTokens := promptTokens + |part.Get("text").s|;
          }
        }
    }
    completionTokens := |outputText.GetOr("")|;
    totalTokens := promptTokens + completionTokens;
  }
}
