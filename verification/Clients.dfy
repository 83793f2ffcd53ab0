/** What the stored history of a conversation is for the two kinds of client
    over runs of any length: one that resends its whole transcript, and one that
    sends only its new message. */
module Clients {
  import opened Text
  import opened Gateway
  import opened Messages
  import opened History
  import opened Partition
  import opened Chat
  import opened Mock
  import opened Runs

  // ------------------------------------------------------ deltas on sequences

  lemma DropKnownPrefix<T>(known: seq<T>, more: seq<T>)
    ensures DropCount(known, known + more) == |known|
    ensures more != [] ==> DropCount(known + more, known) == |known|
  {
    var all := known + more;
    if known != [] {
      assert all[..|known|] == known && known[..|known|] == known;
      CommonPrefixUnique(known, all, |known|);
      CommonPrefixUnique(all, known, |known|);
    }
  }

  lemma LastAnswerAtEnd(history: seq<Message>, answer: string)
    requires history != [] && Project(history[|history| - 1]) == Project(AiMessage(answer)) && answer != ""
    ensures LastAssistant(history) == Some(answer)
  {
  }

  predicate Lowercase(s: string) {
    forall i :: 0 <= i < |s| ==> 'a' <= s[i] <= 'z'
  }

  lemma {:induction false} LowerWord(s: string)
    requires Lowercase(s)
    ensures Lower(s) == s
  {
    if s == "" {
    } else {
      LowerWord(s[1..]);
      assert [s[0]] + s[1..] == s;
    }
  }

  lemma NormalWord(s: string)
    requires Lowercase(s)
    ensures NormalRole(s) == s
  {
    LowerWord(s);
  }

  lemma KnownRoles()
    ensures NormalRole("user") == "user" && NormalRole("assistant") == "assistant"
  {
    NormalWord("user");
    NormalWord("assistant");
  }

  // ------------------------------------------------------ full-history client

  /** The transcript a client has built up, its last request and answer, and
      beside it the stored history and the number of graph runs. */
  datatype Client = Client(transcript: seq<ReqMessage>, request: seq<ReqMessage>, answer: string,
                           history: seq<Message>, runs: nat)

  datatype Event =
    | Say(messages: seq<ReqMessage>, model: Model)    // transcript and new messages
    | Retry(withAnswer: bool, model: Model)           // the last request again

  const NEWCOMER := Client([], [], "", [], 0)

  function Reply(content: Option<string>): ReqMessage {
    ReqMessage("assistant", match content case None => NoContent case Some(t) => Content.Text(t), None, None)
  }

  function RequestOf(c: Client, e: Event): seq<ReqMessage> {
    match e
    case Say(messages, _) => c.transcript + messages
    case Retry(withAnswer, _) => if withAnswer then c.transcript else c.request
  }

  function TurnOf(prompt: string, c: Client, e: Event): Turn {
    ChatTurn(prompt, e.model, c.history, RequestOf(c, e))
  }

  function StepClient(prompt: string, c: Client, e: Event): Client {
    var turn := TurnOf(prompt, c, e);
    var answer, runs := turn.content.GetOr(""), c.runs + if turn.executed then 1 else 0;
    match e
    case Say(messages, _) =>
      var request := c.transcript + messages;
      Client(request + [Reply(turn.content)], request, answer, turn.history, runs)
    case Retry(_, _) => c.(answer := answer, history := turn.history, runs := runs)
  }

  /** The stored history is the client's normalised transcript. */
  ghost predicate InStep(c: Client) {
    ProjectAll(c.history) == ProjectAll(Normalize(c.transcript))
  }

  /** A client in step that was answered, or has not asked yet. */
  ghost predicate FullInv(c: Client) {
    && InStep(c)
    && (c.transcript == [] ==> c.request == [])
    && (c.transcript != [] ==> c.answer != "" && c.transcript == c.request + [Reply(Some(c.answer))])
  }

  predicate HasText(m: ReqMessage) { TextOf(m.content) != "" }

  /** At least one of the messages is not empty. */
  predicate SaysSomething(messages: seq<ReqMessage>) {
    exists i :: 0 <= i < |messages| && HasText(messages[i])
  }

  lemma {:induction false} NormalizedSomething(messages: seq<ReqMessage>, start: nat)
    requires SaysSomething(messages)
    ensures NormalizeFrom(messages, start) != []
    decreases |messages|
  {
    if !HasText(messages[0]) {
      var i :| 0 <= i < |messages| && HasText(messages[i]);
      assert messages[1..][i - 1] == messages[i];
      NormalizedSomething(messages[1..], start + 1);
    }
  }

  lemma {:induction false} NormalizedNothing(messages: seq<ReqMessage>, start: nat)
    requires !SaysSomething(messages)
    ensures NormalizeFrom(messages, start) == []
    decreases |messages|
  {
    if messages == [] {
    } else {
      assert forall i :: 0 <= i < |messages| - 1 ==> messages[1..][i] == messages[i + 1];
      assert !HasText(messages[0]);
      NormalizedNothing(messages[1..], start + 1);
    }
  }

  lemma NormalizedReply(request: seq<ReqMessage>, answer: string)
    ensures Normalize(request + [Reply(NonEmpty(answer))])
         == Normalize(request) + (if answer == "" then [] else [AiMessage(answer)])
  {
    NormalizeSplit(request, [Reply(NonEmpty(answer))]);
    ReplyAlone(answer, |request|);
  }

  lemma ReplyAlone(answer: string, start: nat)
    ensures NormalizeFrom([Reply(NonEmpty(answer))], start) == if answer == "" then [] else [AiMessage(answer)]
  {
    KnownRoles();
    var reply := [Reply(NonEmpty(answer))];
    assert reply[1..] == [];
    assert NormalizeFrom(reply, start) == NormalizeMessage(reply[0], start) + NormalizeFrom(reply[1..], start + 1);
  }

  lemma DeltaOfExtension(history: seq<Message>, known: seq<Message>, more: seq<Message>, incoming: seq<Message>)
    requires ProjectAll(history) == ProjectAll(known) && incoming == known + more
    ensures Delta(history, incoming) == more
  {
    ProjectAppend(known, more);
    DropKnownPrefix(ProjectAll(known), ProjectAll(more));
    assert incoming[|known|..] == more;
  }

  /** The messages a request of the full-history client adds. */
  lemma FullHistoryDelta(history: seq<Message>, transcript: seq<ReqMessage>, messages: seq<ReqMessage>)
    requires ProjectAll(history) == ProjectAll(Normalize(transcript))
    ensures Delta(history, Normalize(transcript + messages)) == NormalizeFrom(messages, |transcript|)
  {
    NormalizeSplit(transcript, messages);
    var known, added := Normalize(transcript), NormalizeFrom(messages, |transcript|);
    DeltaOfExtension(history, known, added, Normalize(transcript + messages));
  }

  /** A turn that says something runs the graph once and appends exactly its own
      messages and the answer; the client stays in step exactly when the answer is
      not empty. */
  lemma SpokenTurn(prompt: string, c: Client, e: Event)
    requires FullInv(c) && e.Say? && SaysSomething(e.messages)
    ensures var next := StepClient(prompt, c, e);
            && next.runs == c.runs + 1
            && ProjectAll(next.history) == ProjectAll(c.history)
                 + ProjectAll(NormalizeFrom(e.messages, |c.transcript|)) + [Project(AiMessage(next.answer))]
            && c.history <= next.history && next.history != []
            && next.history[|next.history| - 1].content == next.answer
            && next.transcript == next.request + [Reply(NonEmpty(next.answer))]
            && |next.history| == |Normalize(next.request)| + 1
            && ProjectAll(next.history)[..|Normalize(next.request)|] == ProjectAll(Normalize(next.request))
            && (InStep(next) <==> next.answer != "")
  {
    var next := StepClient(prompt, c, e);
    var added := NormalizeFrom(e.messages, |c.transcript|);
    FullHistoryDelta(c.history, c.transcript, e.messages);
    NormalizedSomething(e.messages, |c.transcript|);
    NormalizeSplit(c.transcript, e.messages);
    ExecutedSay(prompt, c, e);
    ProjectAppend(Normalize(c.transcript), added);
    AnsweredInStep(next);
  }

  /** A history that is a request and its answer, against the transcript. */
  lemma AnsweredInStep(c: Client)
    requires ProjectAll(c.history) == ProjectAll(Normalize(c.request)) + [Project(AiMessage(c.answer))]
    requires c.transcript == c.request + [Reply(NonEmpty(c.answer))]
    ensures InStep(c) <==> c.answer != ""
    ensures |c.history| == |Normalize(c.request)| + 1
  {
    NormalizedReply(c.request, c.answer);
    assert |ProjectAll(c.history)| == |Normalize(c.request)| + 1;
    if c.answer != "" {
      ProjectAppend(Normalize(c.request), [AiMessage(c.answer)]);
      assert ProjectAll([AiMessage(c.answer)]) == [Project(AiMessage(c.answer))];
    } else {
      assert |Normalize(c.transcript)| == |Normalize(c.request)|;
    }
  }

  /** A turn of an answered client whose messages have no text is answered from the
      history: nothing is stored, but the transcript gains the answer again. */
  lemma SilentTurn(prompt: string, c: Client, e: Event)
    requires FullInv(c) && c.transcript != [] && e.Say? && !SaysSomething(e.messages)
    ensures var next := StepClient(prompt, c, e);
            && next.runs == c.runs && next.history == c.history && next.answer == c.answer
            && Normalize(next.transcript) == Normalize(c.transcript) + [AiMessage(c.answer)]
            && !InStep(next)
  {
    var next := StepClient(prompt, c, e);
    FullHistoryDelta(c.history, c.transcript, e.messages);
    NormalizedNothing(e.messages, |c.transcript|);
    NormalizeSplit(c.transcript, e.messages);
    LastStoredAnswer(c);
    NormalizedReply(next.request, c.answer);
    assert Normalize(c.transcript) + [] == Normalize(c.transcript);
    assert |ProjectAll(c.history)| == |Normalize(c.transcript)|;
  }

  lemma LastStoredAnswer(c: Client)
    requires FullInv(c) && c.transcript != []
    ensures LastAssistant(c.history) == Some(c.answer)
    ensures Normalize(c.transcript) == Normalize(c.request) + [AiMessage(c.answer)]
  {
    var asked, reply := Normalize(c.request), [AiMessage(c.answer)];
    NormalizedReply(c.request, c.answer);
    ProjectAppend(asked, reply);
    assert |c.history| == |ProjectAll(c.history)| == |asked| + 1;
    assert Project(c.history[|c.history| - 1]) == ProjectAll(c.history)[|asked|] == ProjectAll(reply)[0];
    LastAnswerAtEnd(c.history, c.answer);
  }

  /** A newcomer whose messages have no text is answered by the model. */
  lemma SilentNewcomer(prompt: string, c: Client, e: Event)
    requires FullInv(c) && c.transcript == [] && (e.Say? ==> !SaysSomething(e.messages))
    ensures var next := StepClient(prompt, c, e);
            && next.runs == c.runs + 1
            && ProjectAll(next.history) == [Project(AiMessage(next.answer))]
            && (e.Say? ==> (InStep(next) <==> next.answer != ""))
            && (e.Retry? ==> !InStep(next))
  {
    var next := StepClient(prompt, c, e);
    var messages := if e.Say? then e.messages else [];
    assert |c.history| == |ProjectAll(c.history)| == 0;
    assert [] + messages == messages;
    NormalizedNothing(messages, 0);
    ExecuteAppends(prompt, e.model, [], []);
    if e.Say? {
      AnsweredInStep(next);
    } else {
      assert |ProjectAll(next.history)| == 1 && Normalize(next.transcript) == [];
    }
  }

  /** A client in step that says something new stays in step exactly when its
      messages have text, or are its first, and the answer is not empty: an empty
      answer is stored, but no client can send it back; a turn without text brings
      the last answer back, which the client sends as a second one. */
  lemma SayAppendsOnce(prompt: string, c: Client, e: Event)
    requires FullInv(c) && e.Say?
    ensures var next := StepClient(prompt, c, e);
            && (SaysSomething(e.messages) ==>
                  && next.runs == c.runs + 1
                  && ProjectAll(next.history) == ProjectAll(c.history)
                       + ProjectAll(NormalizeFrom(e.messages, |c.transcript|)) + [Project(AiMessage(next.answer))])
            && (InStep(next) <==> (SaysSomething(e.messages) || c.transcript == []) && next.answer != "")
            && (FullInv(next) <==> InStep(next))
            && (InStep(next) ==> next.runs == c.runs + 1)
  {
    if SaysSomething(e.messages) {
      SpokenTurn(prompt, c, e);
    } else if c.transcript == [] {
      SilentNewcomer(prompt, c, e);
    } else {
      SilentTurn(prompt, c, e);
    }
  }

  /** The next turn with text stores the answer a second time. */
  lemma AfterSilentTurn(prompt: string, c: Client, silent: Event, e: Event)
    requires FullInv(c) && c.transcript != [] && silent.Say? && !SaysSomething(silent.messages)
    requires e.Say? && SaysSomething(e.messages)
    ensures var between := StepClient(prompt, c, silent);
            var next := StepClient(prompt, between, e);
            ProjectAll(next.history) == ProjectAll(c.history)
              + ProjectAll([AiMessage(c.answer)] + NormalizeFrom(e.messages, |between.transcript|))
              + [Project(AiMessage(next.answer))]
  {
    SilentTurn(prompt, c, silent);
    var between := StepClient(prompt, c, silent);
    var known, added := Normalize(c.transcript), NormalizeFrom(e.messages, |between.transcript|);
    NormalizeSplit(between.transcript, e.messages);
    Associate(known, [AiMessage(c.answer)], added);
    DeltaOfExtension(c.history, known, [AiMessage(c.answer)] + added, Normalize(between.transcript + e.messages));
    ExecutedSay(prompt, between, e);
  }

  // ------------------------------------------------------ after an empty answer

  function UserRequest(text: string): seq<ReqMessage> {
    [ReqMessage("user", Content.Text(text), None, None)]
  }

  lemma NormalizedUserAt(text: string, start: nat)
    requires text != ""
    ensures NormalizeFrom(UserRequest(text), start) == [HumanMessage(text)]
  {
    KnownRoles();
    var request := UserRequest(text);
    assert request[1..] == [];
    assert NormalizeFrom(request, start)
        == NormalizeMessage(request[0], start) + NormalizeFrom(request[1..], start + 1);
  }

  lemma NormalizedUser(text: string)
    requires text != ""
    ensures Normalize(UserRequest(text)) == [HumanMessage(text)]
  {
    NormalizedUserAt(text, 0);
  }

  /** The store holds an empty answer at position `k`, up to which it agrees with
      the client's transcript. */
  ghost predicate OutOfStep(c: Client, k: nat) {
    var stored, known := ProjectAll(c.history), ProjectAll(Normalize(c.transcript));
    && 1 <= k < |stored| && c.history[k].content == ""
    && k <= |known| && known[..k] == stored[..k]
  }

  /** A client in step gets there with any empty answer to a turn with text. */
  lemma EmptyAnswerIsLost(prompt: string, c: Client, e: Event)
    requires FullInv(c) && e.Say? && SaysSomething(e.messages) && StepClient(prompt, c, e).answer == ""
    ensures var next := StepClient(prompt, c, e);
            OutOfStep(next, |Normalize(c.transcript + e.messages)|)
  {
    var next := StepClient(prompt, c, e);
    SpokenTurn(prompt, c, e);
    NormalizeSplit(c.transcript, e.messages);
    NormalizedSomething(e.messages, |c.transcript|);
    NormalizedReply(next.request, "");
    assert Normalize(next.request) + [] == Normalize(next.request);
  }

  /** Such a client is not in step. */
  lemma OutOfStepMeans(c: Client, k: nat)
    requires OutOfStep(c, k)
    ensures !InStep(c)
  {
    NormalizedNotEmpty(c.transcript, 0);
    var stored, known := ProjectAll(c.history), ProjectAll(Normalize(c.transcript));
    assert k < |known| ==> known[k].content != stored[k].content;
  }

  /** A turn only adds to what is stored. */
  lemma TurnExtends(prompt: string, model: Model, history: seq<Message>, request: seq<ReqMessage>)
    ensures history <= ChatTurn(prompt, model, history, request).history
  {
  }

  lemma SayExtends(c: Client, messages: seq<ReqMessage>, content: Option<string>, known: seq<ReqMessage>)
    requires known == c.transcript + messages + [Reply(content)]
    ensures Normalize(known) == Normalize(c.transcript) + NormalizeFrom(messages + [Reply(content)], |c.transcript|)
  {
    Associate(c.transcript, messages, [Reply(content)]);
    NormalizeSplit(c.transcript, messages + [Reply(content)]);
  }

  /** No event of any kind brings it back in step. */
  lemma StaysOutOfStep(prompt: string, c: Client, e: Event, k: nat)
    requires OutOfStep(c, k)
    ensures OutOfStep(StepClient(prompt, c, e), k)
  {
    StepExtends(prompt, c, e);
    var added := TranscriptExtends(prompt, c, e);
    StillOutOfStep(c, StepClient(prompt, c, e), k, added);
  }

  lemma TranscriptExtends(prompt: string, c: Client, e: Event) returns (added: seq<Message>)
    ensures Normalize(StepClient(prompt, c, e).transcript) == Normalize(c.transcript) + added
  {
    if e.Say? {
      var content := TurnOf(prompt, c, e).content;
      SayExtends(c, e.messages, content, StepClient(prompt, c, e).transcript);
      added := NormalizeFrom(e.messages + [Reply(content)], |c.transcript|);
    } else {
      added := [];
      assert Normalize(c.transcript) + [] == Normalize(c.transcript);
    }
  }

  lemma StepExtends(prompt: string, c: Client, e: Event)
    ensures c.history <= StepClient(prompt, c, e).history
  {
    TurnExtends(prompt, e.model, c.history, RequestOf(c, e));
  }

  lemma OutOfStepForEver(prompt: string, before: seq<Event>, after: seq<Event>, k: nat)
    requires OutOfStep(RunClient(prompt, before), k)
    ensures OutOfStep(RunClient(prompt, before + after), k)
  {
    forall c, e | OutOfStep(c, k) ensures OutOfStep(StepOf(prompt)(c, e), k) {
      StaysOutOfStep(prompt, c, e, k);
    }
    KeepsForEver(StepOf(prompt), NEWCOMER, c => OutOfStep(c, k), before, after);
  }

  /** Once an empty answer is stored, no later state of the run is in step. */
  lemma NeverInStepAgain(prompt: string, before: seq<Event>, e: Event, after: seq<Event>)
    requires FullHistoryRun(prompt, before) && e.Say? && SaysSomething(e.messages)
    requires RunClient(prompt, before + [e]).answer == ""
    ensures !InStep(RunClient(prompt, before + [e] + after))
  {
    FullHistoryInvariant(prompt, before);
    RunOneMore(prompt, before, e);
    var c := RunClient(prompt, before);
    EmptyAnswerIsLost(prompt, c, e);
    var k := |Normalize(c.transcript + e.messages)|;
    OutOfStepForEver(prompt, before + [e], after, k);
    OutOfStepMeans(RunClient(prompt, before + [e] + after), k);
  }

  lemma {:induction false} NormalizedNotEmpty(messages: seq<ReqMessage>, start: nat)
    ensures forall i :: 0 <= i < |NormalizeFrom(messages, start)| ==> NormalizeFrom(messages, start)[i].content != ""
    decreases |messages|
  {
    if messages == [] {
    } else {
      NormalizedNotEmpty(messages[1..], start + 1);
      var first, rest := NormalizeMessage(messages[0], start), NormalizeFrom(messages[1..], start + 1);
      assert NormalizeFrom(messages, start) == first + rest;
    }
  }

  lemma AgreesUpTo(history: seq<Message>, incoming: seq<Message>, k: nat)
    requires 1 <= k < |history| && k < |incoming|
    requires ProjectAll(history)[..k] == ProjectAll(incoming)[..k] && history[k].content != incoming[k].content
    ensures Delta(history, incoming) == incoming[k..]
  {
    var e, i := ProjectAll(history), ProjectAll(incoming);
    assert e[..k][0] == i[..k][0];
    CommonPrefixUnique(e, i, k);
  }

  /** Every later turn with text stores the transcript from that position again. */
  lemma TranscriptStoredAgain(prompt: string, c: Client, e: Event, k: nat)
    requires OutOfStep(c, k) && e.Say? && SaysSomething(e.messages)
    ensures var next, known := StepClient(prompt, c, e), Normalize(c.transcript + e.messages);
            && known == Normalize(c.transcript) + NormalizeFrom(e.messages, |c.transcript|) && |known| > k
            && ProjectAll(next.history)
               == ProjectAll(c.history) + ProjectAll(known[k..]) + [Project(AiMessage(next.answer))]
            && Normalize(next.transcript) == known + (if next.answer == "" then [] else [AiMessage(next.answer)])
            && OutOfStep(next, k)
  {
    DeltaOutOfStep(c, e.messages, k);
    ExecutedSay(prompt, c, e);
    StaysOutOfStep(prompt, c, e, k);
  }

  lemma DeltaOutOfStep(c: Client, messages: seq<ReqMessage>, k: nat)
    requires OutOfStep(c, k) && SaysSomething(messages)
    ensures var known := Normalize(c.transcript + messages);
            && known == Normalize(c.transcript) + NormalizeFrom(messages, |c.transcript|)
            && |known| > k && Delta(c.history, known) == known[k..]
  {
    var first, added := Normalize(c.transcript), NormalizeFrom(messages, |c.transcript|);
    NormalizeSplit(c.transcript, messages);
    NormalizedSomething(messages, |c.transcript|);
    NormalizedNotEmpty(c.transcript + messages, 0);
    ProjectAppend(first, added);
    assert (ProjectAll(first) + ProjectAll(added))[..k] == ProjectAll(first)[..k];
    AgreesUpTo(c.history, Normalize(c.transcript + messages), k);
  }

  lemma StillOutOfStep(c: Client, next: Client, k: nat, added: seq<Message>)
    requires OutOfStep(c, k) && c.history <= next.history
    requires Normalize(next.transcript) == Normalize(c.transcript) + added
    ensures OutOfStep(next, k)
  {
    var first := Normalize(c.transcript);
    ProjectAppend(first, added);
    assert (ProjectAll(first) + ProjectAll(added))[..k] == ProjectAll(first)[..k];
    assert next.history == c.history + next.history[|c.history|..];
    ProjectAppend(c.history, next.history[|c.history|..]);
    assert ProjectAll(next.history)[..k] == ProjectAll(c.history)[..k];
  }

  /** A turn with something new to store. */
  lemma ExecutedSay(prompt: string, c: Client, e: Event)
    requires e.Say? && Delta(c.history, Normalize(c.transcript + e.messages)) != []
    ensures var next, known := StepClient(prompt, c, e), Normalize(c.transcript + e.messages);
            && ProjectAll(next.history)
               == ProjectAll(c.history) + ProjectAll(Delta(c.history, known)) + [Project(AiMessage(next.answer))]
            && c.history <= next.history
            && next.answer == ChatAnswer(prompt, e.model, AddMessages(c.history, Delta(c.history, known)))
            && Normalize(next.transcript) == known + (if next.answer == "" then [] else [AiMessage(next.answer)])
  {
    var delta := Delta(c.history, Normalize(c.transcript + e.messages));
    var answer := ChatAnswer(prompt, e.model, AddMessages(c.history, delta));
    ExecuteAppends(prompt, e.model, c.history, delta);
    NormalizedReply(c.transcript + e.messages, answer);
  }

  /** The turn with the empty answer, and the one after it. */
  lemma EmptyFirstAnswer(prompt: string, q: string)
    requires q != ""
    ensures var c := StepClient(prompt, NEWCOMER, Say(UserRequest(q), Silent));
            && ProjectAll(c.history) == [Project(HumanMessage(q)), Project(AiMessage(""))]
            && Normalize(c.transcript) == [HumanMessage(q)] && OutOfStep(c, 1)
  {
    var c := StepClient(prompt, NEWCOMER, Say(UserRequest(q), Silent));
    NormalizedUser(q);
    assert [] + UserRequest(q) == UserRequest(q);
    NormalizedReply(UserRequest(q), "");
    assert c.history[0] == [HumanMessage(q)][0].(id := Some(0));
    assert ProjectAll(c.history)[0] == Project(c.history[0]);
  }

  function Silent(upstream: seq<ChatMessage>): seq<string> { [] }

  function Says(text: string): Model { upstream => [text] }

  /** A run of three turns whose first answer is empty: the second turn is stored
      twice. */
  lemma EmptyAnswerDuplicates(prompt: string, q: string, r: string, x: string, s: string, last: Model)
    requires q != "" && r != "" && x != "" && s != ""
    ensures var events := [Say(UserRequest(q), Silent), Say(UserRequest(r), Says(x)), Say(UserRequest(s), last)];
            var c := RunClient(prompt, events);
            ProjectAll(c.history) == ProjectAll([HumanMessage(q), AiMessage(""), HumanMessage(r), AiMessage(x),
                                                 HumanMessage(r), AiMessage(x), HumanMessage(s), AiMessage(c.answer)])
  {
    var e1, e2, e3 := Say(UserRequest(q), Silent), Say(UserRequest(r), Says(x)), Say(UserRequest(s), last);
    RunOfThree(prompt, e1, e2, e3);
    AfterTwoTurns(prompt, q, r, x);
    var c2 := StepClient(prompt, StepClient(prompt, NEWCOMER, e1), e2);
    TextStoredAgain(prompt, c2, [HumanMessage(r), AiMessage(x)], s, last);
    JoinTurns(q, r, x, s, StepClient(prompt, c2, e3).answer);
  }

  lemma AfterTwoTurns(prompt: string, q: string, r: string, x: string)
    requires q != "" && r != "" && x != ""
    ensures var c1 := StepClient(prompt, NEWCOMER, Say(UserRequest(q), Silent));
            var c2 := StepClient(prompt, c1, Say(UserRequest(r), Says(x)));
            && OutOfStep(c2, 1) && Normalize(c2.transcript)[1..] == [HumanMessage(r), AiMessage(x)]
            && ProjectAll(c2.history) == [Project(HumanMessage(q)), Project(AiMessage(""))]
                 + ProjectAll([] + [HumanMessage(r)]) + [Project(AiMessage(x))]
  {
    var c1 := StepClient(prompt, NEWCOMER, Say(UserRequest(q), Silent));
    EmptyFirstAnswer(prompt, q);
    TextStoredAgain(prompt, c1, [], r, Says(x));
    AnswerSaid(prompt, c1, r, x);
    assert [HumanMessage(q)] + [HumanMessage(r)] + [AiMessage(x)]
        == [HumanMessage(q)] + [HumanMessage(r), AiMessage(x)];
  }

  lemma AnswerSaid(prompt: string, c: Client, text: string, x: string)
    requires OutOfStep(c, 1) && text != ""
    ensures StepClient(prompt, c, Say(UserRequest(text), Says(x))).answer == x
  {
    TextSays(text);
    DeltaOutOfStep(c, UserRequest(text), 1);
    ExecutedSay(prompt, c, Say(UserRequest(text), Says(x)));
    FlatMapOne<string, char>(Same, x);
  }

  lemma JoinTurns(q: string, r: string, x: string, s: string, y: string)
    ensures [Project(HumanMessage(q)), Project(AiMessage(""))]
              + ProjectAll([] + [HumanMessage(r)]) + [Project(AiMessage(x))]
              + ProjectAll([HumanMessage(r), AiMessage(x)] + [HumanMessage(s)]) + [Project(AiMessage(y))]
         == ProjectAll([HumanMessage(q), AiMessage(""), HumanMessage(r), AiMessage(x),
                        HumanMessage(r), AiMessage(x), HumanMessage(s), AiMessage(y)])
  {
  }

  /** The same for one user message. */
  lemma TextStoredAgain(prompt: string, c: Client, more: seq<Message>, text: string, model: Model)
    requires OutOfStep(c, 1) && text != "" && Normalize(c.transcript)[1..] == more
    ensures var next := StepClient(prompt, c, Say(UserRequest(text), model));
            && ProjectAll(next.history)
               == ProjectAll(c.history) + ProjectAll(more + [HumanMessage(text)]) + [Project(AiMessage(next.answer))]
            && OutOfStep(next, 1)
            && Normalize(next.transcript)
               == Normalize(c.transcript) + [HumanMessage(text)]
                  + (if next.answer == "" then [] else [AiMessage(next.answer)])
  {
    TextSays(text);
    NormalizedUserAt(text, |c.transcript|);
    TranscriptStoredAgain(prompt, c, Say(UserRequest(text), model), 1);
    var known := Normalize(c.transcript);
    assert (known + [HumanMessage(text)])[1..] == known[1..] + [HumanMessage(text)];
  }

  lemma RunOfThree(prompt: string, e1: Event, e2: Event, e3: Event)
    ensures RunClient(prompt, [e1, e2, e3])
         == StepClient(prompt, StepClient(prompt, StepClient(prompt, NEWCOMER, e1), e2), e3)
  {
    OneByOne(e1, e2, e3);
    RunOneMore(prompt, [], e1);
    RunOneMore(prompt, [e1], e2);
    RunOneMore(prompt, [e1, e2], e3);
  }

  lemma OneByOne<T>(a: T, b: T, c: T)
    ensures [] + [a] == [a] && [a] + [b] == [a, b] && [a, b] + [c] == [a, b, c]
  {
  }

  lemma RunOneMore(prompt: string, events: seq<Event>, e: Event)
    ensures RunClient(prompt, events + [e]) == StepClient(prompt, RunClient(prompt, events), e)
  {
    RunAllSnoc(StepOf(prompt), NEWCOMER, events, e);
  }

  lemma TextSays(text: string)
    requires text != ""
    ensures SaysSomething(UserRequest(text))
  {
    assert HasText(UserRequest(text)[0]);
  }

  /** The delta of a request that is answered already. */
  lemma NothingNew(history: seq<Message>, incoming: seq<Message>, more: seq<Message>)
    requires ProjectAll(history) == ProjectAll(incoming + more)
    ensures Delta(history, incoming) == []
  {
    ProjectAppend(incoming, more);
    var known, extra := ProjectAll(incoming), ProjectAll(more);
    if more == [] {
      DropKnownPrefix(known, []);
      assert known + [] == known && extra == [];
    } else {
      DropKnownPrefix(known, extra);
    }
  }

  /** Resending the last request, with or without its answer, changes nothing
      and returns the same answer. */
  lemma RetryChangesNothing(prompt: string, c: Client, e: Event)
    requires FullInv(c) && e.Retry? && c.transcript != []
    ensures StepClient(prompt, c, e) == c
    ensures TurnOf(prompt, c, e) == Turn(c.history, Some(c.answer), false)
    ensures RequestOf(c, e) == if e.withAnswer then c.request + [Reply(Some(c.answer))] else c.request
  {
    var asked, reply := Normalize(c.request), [AiMessage(c.answer)];
    LastStoredAnswer(c);
    if e.withAnswer {
      assert (asked + reply) + [] == asked + reply;
      NothingNew(c.history, Normalize(c.transcript), []);
    } else {
      NothingNew(c.history, asked, reply);
    }
  }

  function StepOf(prompt: string): (Client, Event) -> Client {
    (c, e) => StepClient(prompt, c, e)
  }

  function RunClient(prompt: string, events: seq<Event>): Client {
    RunAll(StepOf(prompt), NEWCOMER, events)
  }

  /** A new request says something, unless it is the first, and gets a non-empty
      answer; a retry comes after a first answer. */
  predicate GoesWell(prompt: string, c: Client, e: Event) {
    match e
    case Say(messages, _) =>
      (SaysSomething(messages) || c.transcript == []) && StepClient(prompt, c, e).answer != ""
    case Retry(_, _) => c.transcript != []
  }

  /** A run of a full-history client on which every event goes well. */
  predicate FullHistoryRun(prompt: string, events: seq<Event>) {
    events == [] ||
    var n := |events| - 1;
    FullHistoryRun(prompt, events[..n]) && GoesWell(prompt, RunClient(prompt, events[..n]), events[n])
  }

  lemma FullHistoryRunSnoc(prompt: string, before: seq<Event>, e: Event)
    ensures FullHistoryRun(prompt, before + [e])
       <==> FullHistoryRun(prompt, before) && GoesWell(prompt, RunClient(prompt, before), e)
  {
    assert (before + [e])[..|before|] == before;
  }

  function SayCount(events: seq<Event>): nat {
    if events == [] then 0
    else SayCount(events[..|events| - 1]) + if events[|events| - 1].Say? then 1 else 0
  }

  /** Over any run the stored history is the normalised transcript, and the
      graph has run once for each request that was not a retry. */
  lemma {:induction false} FullHistoryInvariant(prompt: string, events: seq<Event>)
    requires FullHistoryRun(prompt, events)
    ensures FullInv(RunClient(prompt, events))
    ensures RunClient(prompt, events).runs == SayCount(events)
  {
    if events == [] {
    } else {
      var before, e := events[..|events| - 1], events[|events| - 1];
      FullHistoryInvariant(prompt, before);
      if e.Say? {
        SayAppendsOnce(prompt, RunClient(prompt, before), e);
      } else {
        RetryChangesNothing(prompt, RunClient(prompt, before), e);
      }
    }
  }

  /** The client is in step after every event of the run. */
  ghost predicate AlwaysInStep(prompt: string, events: seq<Event>) {
    Always(StepOf(prompt), NEWCOMER, InStep, events)
  }

  /** These runs are exactly the runs that never leave the transcript. */
  lemma {:induction false} FullHistoryIff(prompt: string, events: seq<Event>)
    ensures FullHistoryRun(prompt, events) <==> AlwaysInStep(prompt, events)
  {
    if events == [] {
      assert events[..0] == [] && Normalize([]) == [];
    } else {
      var n := |events| - 1;
      var before, e := events[..n], events[n];
      FullHistoryIff(prompt, before);
      FullHistoryIffSnoc(prompt, before, e);
      LastApart(events);
    }
  }

  lemma FullHistoryIffSnoc(prompt: string, before: seq<Event>, e: Event)
    requires FullHistoryRun(prompt, before) <==> AlwaysInStep(prompt, before)
    ensures FullHistoryRun(prompt, before + [e]) <==> AlwaysInStep(prompt, before + [e])
  {
    FullHistoryRunSnoc(prompt, before, e);
    AlwaysSnoc(StepOf(prompt), NEWCOMER, InStep, before, e);
    RunOneMore(prompt, before, e);
    if FullHistoryRun(prompt, before) {
      FullHistoryInvariant(prompt, before);
      StepInStepIff(prompt, RunClient(prompt, before), e);
    }
  }

  lemma StepInStepIff(prompt: string, c: Client, e: Event)
    requires FullInv(c)
    ensures InStep(StepClient(prompt, c, e)) <==> GoesWell(prompt, c, e)
  {
    if e.Say? {
      SayAppendsOnce(prompt, c, e);
    } else if c.transcript == [] {
      SilentNewcomer(prompt, c, e);
    } else {
      RetryChangesNothing(prompt, c, e);
    }
  }

  // -------------------------------------------------------- delta-only client

  predicate EndsInAi(history: seq<Message>) {
    history == [] || history[|history| - 1].kind == Ai
  }

  lemma DeltaOfOne(history: seq<Message>, m: Message)
    requires EndsInAi(history) && m.kind == Human
    ensures Delta(history, [m]) == if history != [] && Project(history[0]) == Project(m) then [] else [m]
  {
    var e, i := ProjectAll(history), ProjectAll([m]);
    if history != [] {
      if e[0] == i[0] {
        CommonPrefixUnique(e, i, 1);
      } else {
        assert e[|e| - 1..][0] == e[|e| - 1] && i[..1][0] == i[0];
      }
    }
  }

  /** A graph run appends its messages and one answer. */
  lemma ExecuteAppends(prompt: string, model: Model, history: seq<Message>, delta: seq<Message>)
    ensures var turn := ExecuteTurn(prompt, model, history, delta);
            && |turn.history| == |history| + |delta| + 1
            && EndsInAi(turn.history)
            && ProjectAll(turn.history) == ProjectAll(history) + ProjectAll(delta)
                 + [Project(AiMessage(ChatAnswer(prompt, model, AddMessages(history, delta))))]
  {
  }

  /** On a history that is empty or ends with an answer, a single user message
      is appended with its answer exactly when it differs from the first stored
      message; the history ends with an answer either way. */
  lemma DeltaTurnIff(prompt: string, model: Model, history: seq<Message>, text: string)
    requires EndsInAi(history) && text != ""
    ensures var turn := ChatTurn(prompt, model, history, UserRequest(text));
            && (turn == ExecuteTurn(prompt, model, history, [HumanMessage(text)])
                <==> (history == [] || Project(history[0]) != Project(HumanMessage(text))))
            && EndsInAi(turn.history) && turn.history != []
  {
    NormalizedUser(text);
    DeltaOfOne(history, HumanMessage(text));
    ExecuteAppends(prompt, model, history, []);
    ExecuteAppends(prompt, model, history, [HumanMessage(text)]);
  }

  /** Repeating the first message brings back the latest answer instead. */
  lemma RepeatedFirstMessage(prompt: string, model: Model, history: seq<Message>, text: string)
    requires EndsInAi(history) && text != ""
    requires history != [] && Project(history[0]) == Project(HumanMessage(text)) && LastAssistant(history).Some?
    ensures ChatTurn(prompt, model, history, UserRequest(text)) == Turn(history, LastAssistant(history), false)
  {
    NormalizedUser(text);
    DeltaOfOne(history, HumanMessage(text));
  }

  /** The history after each text was sent on its own. */
  function DeltaRun(prompt: string, model: Model, texts: seq<string>): seq<Message> {
    if texts == [] then []
    else
      var n := |texts| - 1;
      ChatTurn(prompt, model, DeltaRun(prompt, model, texts[..n]), UserRequest(texts[n])).history
  }

  /** The history is each text followed by one answer, in order. */
  ghost predicate StoredOnce(history: seq<Message>, texts: seq<string>)
    decreases |texts|
  {
    if texts == [] then history == []
    else
      var n, k := |texts| - 1, |history| - 2;
      && k >= 0
      && Project(history[k]) == Project(HumanMessage(texts[n]))
      && history[k + 1].kind == Ai
      && StoredOnce(history[..k], texts[..n])
  }

  lemma {:induction false} StoredOnceStart(history: seq<Message>, texts: seq<string>)
    requires StoredOnce(history, texts) && texts != []
    ensures history != [] && Project(history[0]) == Project(HumanMessage(texts[0]))
    decreases |texts|
  {
    if |texts| > 1 {
      StoredOnceStart(history[..|history| - 2], texts[..|texts| - 1]);
    } else {
      assert history[..|history| - 2] == [];
    }
  }

  lemma ExecuteKeeps(prompt: string, model: Model, history: seq<Message>, text: string)
    ensures var next := ExecuteTurn(prompt, model, history, [HumanMessage(text)]).history;
            && |next| == |history| + 2 && next[..|history|] == history
            && Project(next[|history|]) == Project(HumanMessage(text)) && next[|history| + 1].kind == Ai
  {
  }

  /** Over any run of a delta-only client that never repeats its first message,
      and whatever the model answers, each turn is stored once. */
  lemma {:induction false} DeltaOnlyRun(prompt: string, model: Model, texts: seq<string>)
    requires forall i :: 0 <= i < |texts| ==> texts[i] != "" && (i > 0 ==> texts[i] != texts[0])
    ensures StoredOnce(DeltaRun(prompt, model, texts), texts)
  {
    if texts == [] {
    } else {
      var n := |texts| - 1;
      DeltaOnlyRun(prompt, model, texts[..n]);
      var history := DeltaRun(prompt, model, texts[..n]);
      if n > 0 {
        StoredOnceStart(history, texts[..n]);
      }
      DeltaTurnIff(prompt, model, history, texts[n]);
      ExecuteKeeps(prompt, model, history, texts[n]);
    }
  }

  function MockModel(sysCode: string, name: string): Model {
    messages => MockTokens(sysCode, name, messages)
  }

  /** The dialogue with the mock: turn `n` is answered with a note of the `n`
      earlier user messages. */
  function Dialogue(sysCode: string, name: string, texts: seq<string>): seq<Projection> {
    if texts == [] then []
    else
      var n := |texts| - 1;
      Dialogue(sysCode, name, texts[..n])
      + [Project(HumanMessage(texts[n])), Project(AiMessage(MockText(sysCode, name, texts[n], n)))]
  }

  lemma MockChatAnswer(prompt: string, sysCode: string, name: string, history: seq<Message>, text: string)
    requires text != ""
    ensures var merged := AddMessages(history, [HumanMessage(text)]);
            ChatAnswer(prompt, MockModel(sysCode, name), merged)
            == MockText(sysCode, name, text, UserCount(ToGateway(history)))
  {
    var merged := AddMessages(history, [HumanMessage(text)]);
    var m := merged[|history|];
    assert merged == history + [m];
    FlatMapSnoc(GatewayMessage, history, m);
    var last := ChatMessage("user", text, None, None);
    FilterSnoc(true, IsUser, ToGateway(history), last);
    UsersSeen(prompt, merged);
    SplitSpacesRejoin(MockAnswer(sysCode, name, Upstream(prompt, merged)));
  }

  /** A prompt put in front is not a user message. */
  lemma UsersSeen(prompt: string, history: seq<Message>)
    ensures Filter(true, IsUser, Upstream(prompt, history)) == Filter(true, IsUser, ToGateway(history))
  {
    var upstream, messages := Upstream(prompt, history), ToGateway(history);
    var system := ChatMessage("system", prompt, None, None);
    assert ([system] + messages)[1..] == messages && !IsUser(system);
    if upstream != messages {
      assert upstream == [system] + messages;
      assert [] + Filter(true, IsUser, messages) == Filter(true, IsUser, messages);
    }
  }

  lemma UserCountOfTurn(history: seq<Message>, text: string, answer: string)
    requires text != ""
    ensures UserCount(ToGateway(AddMessages(AddMessages(history, [HumanMessage(text)]), [AiMessage(answer)])))
         == UserCount(ToGateway(history)) + 1
  {
    var merged := AddMessages(history, [HumanMessage(text)]);
    var full := AddMessages(merged, [AiMessage(answer)]);
    assert merged == history + [merged[|history|]];
    assert full == merged + [full[|merged|]];
    FlatMapSnoc(GatewayMessage, history, merged[|history|]);
    FlatMapSnoc(GatewayMessage, merged, full[|merged|]);
    FilterSnoc(true, IsUser, ToGateway(history), ChatMessage("user", text, None, None));
    if answer == "" {
      assert ToGateway(merged) + [] == ToGateway(merged);
    } else {
      FilterSnoc(true, IsUser, ToGateway(merged), ChatMessage("assistant", answer, None, None));
    }
  }

  /** One turn of that dialogue. */
  lemma DialogueTurn(prompt: string, sysCode: string, name: string, history: seq<Message>, text: string)
    requires EndsInAi(history) && text != ""
    requires history == [] || Project(history[0]) != Project(HumanMessage(text))
    ensures var next := ChatTurn(prompt, MockModel(sysCode, name), history, UserRequest(text)).history;
            var answer := MockText(sysCode, name, text, UserCount(ToGateway(history)));
            && ProjectAll(next) == ProjectAll(history) + [Project(HumanMessage(text)), Project(AiMessage(answer))]
            && UserCount(ToGateway(next)) == UserCount(ToGateway(history)) + 1
            && EndsInAi(next) && next != []
  {
    DeltaTurnIff(prompt, MockModel(sysCode, name), history, text);
    MockChatAnswer(prompt, sysCode, name, history, text);
    var answer := MockText(sysCode, name, text, UserCount(ToGateway(history)));
    UserCountOfTurn(history, text, answer);
    assert ProjectAll([HumanMessage(text)]) == [Project(HumanMessage(text))];
    ExecuteAppends(prompt, MockModel(sysCode, name), history, [HumanMessage(text)]);
    Associate(ProjectAll(history), [Project(HumanMessage(text))], [Project(AiMessage(answer))]);
  }

  lemma {:induction false} DialogueStart(sysCode: string, name: string, texts: seq<string>)
    requires texts != []
    ensures var all := Dialogue(sysCode, name, texts); all != [] && all[0] == Project(HumanMessage(texts[0]))
  {
    if |texts| <= 1 {
    } else {
      DialogueStart(sysCode, name, texts[..|texts| - 1]);
    }
  }

  /** A delta-only client that never repeats its first message gets, with the
      mock, exactly the dialogue: each turn stored once, each answer counting
      the earlier turns. */
  lemma {:induction false} DeltaOnlyDialogue(prompt: string, sysCode: string, name: string, texts: seq<string>)
    requires forall i :: 0 <= i < |texts| ==> texts[i] != "" && (i > 0 ==> texts[i] != texts[0])
    ensures var history := DeltaRun(prompt, MockModel(sysCode, name), texts);
            && ProjectAll(history) == Dialogue(sysCode, name, texts)
            && UserCount(ToGateway(history)) == |texts|
            && EndsInAi(history)
  {
    if texts == [] {
    } else {
      var n := |texts| - 1;
      var before := texts[..n];
      DeltaOnlyDialogue(prompt, sysCode, name, before);
      var history := DeltaRun(prompt, MockModel(sysCode, name), before);
      if n > 0 {
        DialogueStart(sysCode, name, before);
        assert Project(history[0]) == ProjectAll(history)[0];
      }
      DialogueTurn(prompt, sysCode, name, history, texts[n]);
    }
  }
}
