/** The conversation workflow: `run_once` merges a request into the stored
    history, answers from the history when there is nothing new, and otherwise
    runs the chat node, which appends the model's answer. */
module Chat {
  import opened Text
  import opened Gateway
  import opened Messages
  import opened History
  import opened Partition

  /** The tokens the bound gateway yields for a list of upstream messages. */
  type Model = seq<ChatMessage> -> seq<string>

  // --------------------------------------------------------------- chat node

  function RoleName(kind: Kind): string {
    match kind
    case Human => "user"
    case Ai => "assistant"
    case System => "system"
    case Tool => "tool"
  }

  function GatewayMessage(m: Message): seq<ChatMessage> {
    if m.content == "" then [] else [ChatMessage(RoleName(m.kind), m.content, m.name, m.toolCallId)]
  }

  predicate IsSystem(m: ChatMessage) { m.role == "system" }

  function ToGateway(history: seq<Message>): seq<ChatMessage> {
    FlatMap(GatewayMessage, history)
  }

  /** What the provider is asked: the history without empty messages, with the
      configured system prompt in front unless the history brings its own. */
  function Upstream(prompt: string, history: seq<Message>): seq<ChatMessage> {
    var messages := ToGateway(history);
    if prompt != "" && Filter(true, IsSystem, messages) == []
    then [ChatMessage("system", prompt, None, None)] + messages
    else messages
  }

  /** The history reaches the provider in order and complete but for its empty
      messages; at most one message is put before it, when it has no system
      message of its own, and then the provider sees the configured prompt. */
  lemma PromptComesFirst(prompt: string, history: seq<Message>)
    ensures var upstream, messages := Upstream(prompt, history), ToGateway(history);
            && IsSuffix(messages, upstream) && |upstream| <= |messages| + 1
            && (prompt == "" || Filter(true, IsSystem, messages) != [] <==> upstream == messages)
            && (upstream != messages ==> upstream[0] == ChatMessage("system", prompt, None, None))
  {
  }

  method ToGatewayMessages(history: seq<Message>) returns (converted: seq<ChatMessage>)
    ensures converted == ToGateway(history)
  {
    converted := [];
    for i := 0 to |history|
      invariant converted == ToGateway(history[..i])
    {
      assert history[..i + 1] == history[..i] + [history[i]];
      FlatMapSnoc(GatewayMessage, history[..i], history[i]);
      var m := history[i];
      if m.content == "" { continue; }
      converted := converted + [ChatMessage(RoleName(m.kind), m.content, m.name, m.toolCallId)];
    }
    assert history[..|history|] == history;
  }

  function ChatAnswer(prompt: string, model: Model, history: seq<Message>): string {
    Flatten(model(Upstream(prompt, history)))
  }

  /** The chat node: the message it appends, and the answer. */
  method ChatNode(prompt: string, model: Model, history: seq<Message>) returns (appended: seq<Message>, answer: string)
    ensures answer == ChatAnswer(prompt, model, history)
    ensures appended == [AiMessage(answer)]
  {
    var upstream := ToGatewayMessages(history);
    if prompt != "" && Filter(true, IsSystem, upstream) == [] {
      upstream := [ChatMessage("system", prompt, None, None)] + upstream;
    }
    answer := JoinTokens(model(upstream));
    appended := [AiMessage(answer)];
  }

  // ----------------------------------------------------------------- the turn

  /** The store appends messages under new ids. */
  function AddMessages(history: seq<Message>, added: seq<Message>): (r: seq<Message>)
    ensures ProjectAll(r) == ProjectAll(history) + ProjectAll(added)
    ensures |r| == |history| + |added| && history <= r
    ensures forall i :: |history| <= i < |r| ==> r[i].id == Some(i)
  {
    history + seq(|added|, i requires 0 <= i < |added| => added[i].(id := Some(|history| + i)))
  }

  predicate IsAnswer(m: Message) { m.kind == Ai && m.content != "" }

  /** The latest non-empty assistant text. */
  function LastAssistant(history: seq<Message>): Option<string> {
    if history == [] then None
    else if IsAnswer(history[|history| - 1]) then Some(history[|history| - 1].content)
    else LastAssistant(history[..|history| - 1])
  }

  method LastAssistantText(history: seq<Message>) returns (text: Option<string>)
    ensures text == LastAssistant(history)
    ensures text.None? ==> forall i :: 0 <= i < |history| ==> !(history[i].kind == Ai && history[i].content != "")
    ensures text.Some? ==> text.value != ""
    ensures text.Some? ==> exists i :: 0 <= i < |history| && history[i].kind == Ai && history[i].content == text.value
                             && forall j :: i < j < |history| ==> !(history[j].kind == Ai && history[j].content != "")
  {
    var i := |history|;
    assert history[..i] == history;
    while i > 0
      invariant 0 <= i <= |history|
      invariant LastAssistant(history) == LastAssistant(history[..i])
      invariant forall j :: i <= j < |history| ==> !IsAnswer(history[j])
    {
      i := i - 1;
      assert history[..i + 1][..i] == history[..i];
      if history[i].kind != Ai { continue; }
      if history[i].content != "" { return Some(history[i].content); }
    }
    return None;
  }

  datatype Turn = Turn(history: seq<Message>, content: Option<string>, executed: bool)

  function NonEmpty(answer: string): Option<string> {
    if answer == "" then None else Some(answer)
  }

  /** A graph run on the history extended by `delta`. */
  function ExecuteTurn(prompt: string, model: Model, history: seq<Message>, delta: seq<Message>): Turn {
    var merged := AddMessages(history, delta);
    var answer := ChatAnswer(prompt, model, merged);
    Turn(AddMessages(merged, [AiMessage(answer)]), NonEmpty(answer), true)
  }

  /** One request to one conversation thread. */
  function ChatTurn(prompt: string, model: Model, history: seq<Message>, request: seq<ReqMessage>): Turn {
    var delta := Delta(history, Normalize(request));
    if delta == [] && LastAssistant(history).Some?
    then Turn(history, LastAssistant(history), false)
    else ExecuteTurn(prompt, model, history, delta)
  }

  /** The checkpoint store behind the runtime, by thread id. */
  class Runtime {
    var threads: map<string, seq<Message>>

    function HistoryOf(threadId: string): seq<Message>
      reads this
    {
      if threadId in threads then threads[threadId] else []
    }

    constructor ()
      ensures threads == map[]
    {
      threads := map[];
    }

    /** `run_once` for a conversation workflow. */
    method RunOnce(threadId: string, request: seq<ReqMessage>, prompt: string, model: Model)
      returns (content: Option<string>)
      modifies this
      ensures HistoryOf(threadId) == ChatTurn(prompt, model, old(HistoryOf(threadId)), request).history
      ensures content == ChatTurn(prompt, model, old(HistoryOf(threadId)), request).content
      ensures forall other :: other != threadId ==> HistoryOf(other) == old(HistoryOf(other))
      ensures Delta(old(HistoryOf(threadId)), Normalize(request)) == [] && LastAssistant(old(HistoryOf(threadId))).Some?
        ==> threads == old(threads)
    {
      var existing := HistoryOf(threadId);
      var incoming := NormalizeRequestMessages(request);
      var delta := MessagesDelta(existing, incoming);
      if delta == [] {
        var cached := LastAssistantText(existing);
        if cached.Some? { return cached; }
      }
      var merged := AddMessages(existing, delta);
      var appended, answer := ChatNode(prompt, model, merged);
      threads := threads[threadId := AddMessages(merged, appended)];
      content := NonEmpty(answer);
    }
  }
}
