/** From the messages of a request to the messages the provider gets, told on the
    request: roles, texts and tool ids. */
module Requests {
  import opened Text
  import opened TextMeaning
  import opened Json
  import opened Gateway
  import opened Partition
  import opened Messages
  import opened History
  import opened Chat
  import opened Hitl
  import opened Clients

  // -------------------------------------------------------------- roles and texts

  lemma NamesTheRole(role: string, word: string)
    requires forall i :: 0 <= i < |word| ==> 'a' <= word[i] <= 'z'
    ensures NormalRole(role) == word <==> Names(role, word)
  {
    RoleMeaning(role, word);
  }

  /** No role names two words, and the four role names are words. */
  lemma FourRoles(role: string)
    ensures NormalRole(role) == "user" <==> Names(role, "user")
    ensures NormalRole(role) == "assistant" <==> Names(role, "assistant")
    ensures NormalRole(role) == "system" <==> Names(role, "system")
    ensures NormalRole(role) == "tool" <==> Names(role, "tool")
  {
    NamesTheRole(role, "user");
    NamesTheRole(role, "assistant");
    NamesTheRole(role, "system");
    NamesTheRole(role, "tool");
  }

  /** The text of a content: a string itself, and the texts of the parts of type
      "text", in order. */
  lemma ContentText(a: seq<map<string, Json>>, item: map<string, Json>, b: seq<map<string, Json>>, text: string)
    ensures TextOf(Content.Text(text)) == text && TextOf(NoContent) == "" && TextOf(Parts([])) == ""
    ensures TextOf(Parts(a + [item] + b)) == TextOf(Parts(a))
      + (if "type" in item && item["type"] == JStr("text") && "text" in item && item["text"].JStr? then item["text"].s
         else "")
      + TextOf(Parts(b))
  {
    FlatMapAppend(PartText, a + [item], b);
    FlatMapSnoc(PartText, a, item);
  }

  /** A tool or user message with text. */
  ghost predicate IsInput(m: ReqMessage) {
    (Names(m.role, "tool") || Names(m.role, "user")) && TextOf(m.content) != ""
  }

  /** These are the messages that the last-input extractors accept. */
  lemma InputMeaning(m: ReqMessage)
    ensures HasInput(m) <==> IsInput(m)
  {
    FourRoles(m.role);
  }

  /** Two messages count as the same exactly when kind, text, name and tool id are. */
  lemma ProjectionIff(a: Message, b: Message)
    ensures Project(a) == Project(b)
       <==> a.kind == b.kind && a.content == b.content && a.name == b.name && a.toolCallId == b.toolCallId
  {
  }

  // ---------------------------------------------------------- request to provider

  /** What the provider gets for the message at a position of the request. */
  ghost predicate SentAs(m: ReqMessage, position: nat, sent: ChatMessage) {
    && sent.content == TextOf(m.content) && sent.name == None
    && (Names(m.role, "assistant") ==> sent.role == "assistant" && sent.toolCallId == None)
    && (Names(m.role, "system") ==> sent.role == "system" && sent.toolCallId == None)
    && (Names(m.role, "tool") ==>
          && sent.role == "tool"
          && sent.toolCallId == Some(if m.toolCallId == None || m.toolCallId == Some("")
                                     then "tool-" + Decimal(position) else m.toolCallId.value))
    && (!Names(m.role, "assistant") && !Names(m.role, "system") && !Names(m.role, "tool") ==>
          sent.role == "user" && sent.toolCallId == None)
  }

  /** The positions of the elements on which `keep` holds, counted from `start`. */
  function Positions<T>(keep: T -> bool, xs: seq<T>, start: nat): seq<nat>
    decreases |xs|
  {
    if xs == [] then [] else (if keep(xs[0]) then [start] else []) + Positions(keep, xs[1..], start + 1)
  }

  /** They are these positions. */
  lemma {:induction false} PositionsMeaning<T>(keep: T -> bool, xs: seq<T>, start: nat, k: nat)
    ensures k in Positions(keep, xs, start) <==> start <= k < start + |xs| && keep(xs[k - start])
    decreases |xs|
  {
    if xs == [] {
    } else {
      PositionsMeaning(keep, xs[1..], start + 1, k);
    }
  }

  /** Each once and in order. */
  lemma {:induction false} PositionsAscend<T>(keep: T -> bool, xs: seq<T>, start: nat)
    ensures forall i, j :: 0 <= i < j < |Positions(keep, xs, start)| ==>
      Positions(keep, xs, start)[i] < Positions(keep, xs, start)[j]
    decreases |xs|
  {
    if xs == [] {
    } else {
      PositionsAscend(keep, xs[1..], start + 1);
      var rest := Positions(keep, xs[1..], start + 1);
      forall i | 0 <= i < |rest| ensures rest[i] > start {
        PositionsMeaning(keep, xs[1..], start + 1, rest[i]);
        assert rest[i] in rest;
      }
    }
  }

  /** The positions of the messages with text. */
  function TextPositions(ms: seq<ReqMessage>): seq<nat> {
    Positions(HasText, ms, 0)
  }

  /** The same on normalised roles. */
  function SentMessage(m: ReqMessage, position: nat): ChatMessage {
    var role, text := NormalRole(m.role), TextOf(m.content);
    if role == "assistant" || role == "system" then ChatMessage(role, text, None, None)
    else if role == "tool" then
      ChatMessage(role, text, None, Some(if m.toolCallId.GetOr("") != "" then m.toolCallId.value
                                         else "tool-" + Decimal(position)))
    else ChatMessage("user", text, None, None)
  }

  lemma OneMessageSent(m: ReqMessage, position: nat)
    ensures ToGateway(NormalizeMessage(m, position))
         == if TextOf(m.content) == "" then [] else [SentMessage(m, position)]
  {
    if TextOf(m.content) != "" {
      FlatMapOne(GatewayMessage, NormalizeMessage(m, position)[0]);
    }
  }

  lemma SentMessageMeaning(m: ReqMessage, position: nat)
    ensures SentAs(m, position, SentMessage(m, position))
  {
    FourRoles(m.role);
    assert |"assistant"| == 9 && |"system"| == 6 && |"tool"| == 4;
  }

  /** What is sent for each element that is kept is right for it, by `p`. */
  ghost predicate AllMatch<T, U>(p: (T, nat, U) -> bool, keep: T -> bool, xs: seq<T>, start: nat, sent: seq<U>) {
    var at := Positions(keep, xs, start);
    |sent| == |at| && forall j :: 0 <= j < |at| ==>
      start <= at[j] < start + |xs| && p(xs[at[j] - start], at[j], sent[j])
  }

  lemma AllMatchCons<T, U>(p: (T, nat, U) -> bool, keep: T -> bool, xs: seq<T>, start: nat, first: seq<U>, rest: seq<U>)
    requires xs != [] && AllMatch(p, keep, xs[1..], start + 1, rest)
    requires if keep(xs[0]) then |first| == 1 && p(xs[0], start, first[0]) else first == []
    ensures AllMatch(p, keep, xs, start, first + rest)
  {
    var at, more := Positions(keep, xs, start), Positions(keep, xs[1..], start + 1);
    forall j | 0 <= j < |at|
      ensures start <= at[j] < start + |xs| && p(xs[at[j] - start], at[j], (first + rest)[j])
    {
      var k := j - |first|;
      if k >= 0 {
        assert at[j] == more[k] && xs[1..][more[k] - (start + 1)] == xs[more[k] - start];
        assert (first + rest)[j] == rest[k];
      }
    }
  }

  ghost function Sends(): (ReqMessage, nat, ChatMessage) -> bool {
    (m: ReqMessage, position: nat, sent: ChatMessage) => SentAs(m, position, sent)
  }

  /** Each message with text is sent, as its role, text and tool id demand. */
  ghost predicate AllSent(ms: seq<ReqMessage>, start: nat, sent: seq<ChatMessage>) {
    AllMatch(Sends(), HasText, ms, start, sent)
  }

  lemma {:induction false} RequestIsSent(ms: seq<ReqMessage>, start: nat)
    ensures AllSent(ms, start, ToGateway(NormalizeFrom(ms, start)))
    decreases |ms|
  {
    if ms == [] {
    } else {
      var first, rest := NormalizeMessage(ms[0], start), NormalizeFrom(ms[1..], start + 1);
      RequestIsSent(ms[1..], start + 1);
      OneMessageSent(ms[0], start);
      SentMessageMeaning(ms[0], start);
      FlatMapAppend(GatewayMessage, first, rest);
      assert NormalizeFrom(ms, start) == first + rest;
      AllMatchCons(Sends(), HasText, ms, start, ToGateway(first), ToGateway(rest));
    }
  }

  /** The provider's messages do not depend on the ids in the store. */
  lemma {:induction false} SentByProjection(a: seq<Message>, b: seq<Message>)
    requires ProjectAll(a) == ProjectAll(b)
    ensures ToGateway(a) == ToGateway(b)
  {
    assert |a| == |ProjectAll(a)| == |b|;
    if a == [] {
    } else {
      assert ProjectAll(a)[0] == Project(a[0]) && ProjectAll(b)[0] == Project(b[0]);
      assert ProjectAll(a[1..]) == ProjectAll(a)[1..] && ProjectAll(b[1..]) == ProjectAll(b)[1..];
      SentByProjection(a[1..], b[1..]);
    }
  }

  /** A message with text in the system role. */
  ghost predicate BringsSystem(ms: seq<ReqMessage>) {
    exists i :: 0 <= i < |ms| && TextOf(ms[i].content) != "" && Names(ms[i].role, "system")
  }

  lemma SystemRoleSent(m: ReqMessage, position: nat, sent: ChatMessage)
    requires SentAs(m, position, sent)
    ensures IsSystem(sent) <==> Names(m.role, "system")
  {
    assert "user" != "system" && "tool" != "system" && "assistant" != "system";
  }

  lemma SystemSent(ms: seq<ReqMessage>, sent: seq<ChatMessage>)
    requires AllSent(ms, 0, sent)
    ensures Filter(true, IsSystem, sent) != [] <==> BringsSystem(ms)
  {
    var at := TextPositions(ms);
    if Filter(true, IsSystem, sent) != [] {
      var m := Filter(true, IsSystem, sent)[0];
      FilterMember(true, IsSystem, sent, m);
      var j :| 0 <= j < |sent| && sent[j] == m;
      SystemAt(ms, sent, j);
    }
    if BringsSystem(ms) {
      var i :| 0 <= i < |ms| && TextOf(ms[i].content) != "" && Names(ms[i].role, "system");
      PositionsMeaning(HasText, ms, 0, i);
      var j :| 0 <= j < |at| && at[j] == i;
      SystemAt(ms, sent, j);
      FilterMember(true, IsSystem, sent, sent[j]);
    }
  }

  lemma SystemAt(ms: seq<ReqMessage>, sent: seq<ChatMessage>, j: nat)
    requires AllSent(ms, 0, sent) && j < |sent|
    ensures var i := TextPositions(ms)[j];
            i < |ms| && HasText(ms[i]) && (IsSystem(sent[j]) <==> Names(ms[i].role, "system"))
  {
    var i := MatchAt(Sends(), HasText, ms, sent, j);
    SystemRoleSent(ms[i], i, sent[j]);
  }

  lemma MatchAt<T, U>(p: (T, nat, U) -> bool, keep: T -> bool, xs: seq<T>, sent: seq<U>, j: nat) returns (i: nat)
    requires AllMatch(p, keep, xs, 0, sent) && j < |sent|
    ensures i == Positions(keep, xs, 0)[j] && i < |xs| && keep(xs[i]) && p(xs[i], i, sent[j])
  {
    i := Positions(keep, xs, 0)[j];
    assert i in Positions(keep, xs, 0);
    PositionsMeaning(keep, xs, 0, i);
  }

  /** The provider gets the messages with text, each with its role, text and tool
      id, in order; the configured prompt comes first exactly when there is one and
      no message of the request is in the system role. */
  ghost predicate ProviderSees(prompt: string, ms: seq<ReqMessage>, upstream: seq<ChatMessage>) {
    var front := if prompt != "" && !BringsSystem(ms) then [ChatMessage("system", prompt, None, None)] else [];
    front <= upstream && AllSent(ms, 0, upstream[|front|..])
  }

  /** For any history that holds the normalised messages, under any ids. */
  lemma UpstreamMeaning(prompt: string, history: seq<Message>, ms: seq<ReqMessage>)
    requires ProjectAll(history) == ProjectAll(Normalize(ms))
    ensures ProviderSees(prompt, ms, Upstream(prompt, history))
  {
    SentByProjection(history, Normalize(ms));
    RequestIsSent(ms, 0);
    var sent := ToGateway(history);
    SystemSent(ms, sent);
    assert ([ChatMessage("system", prompt, None, None)] + sent)[1..] == sent && sent[0..] == sent;
  }

  lemma {:induction false} AllPositions<T>(keep: T -> bool, xs: seq<T>, start: nat)
    requires forall i :: 0 <= i < |xs| ==> keep(xs[i])
    ensures |Positions(keep, xs, start)| == |xs|
    ensures forall i :: 0 <= i < |xs| ==> Positions(keep, xs, start)[i] == start + i
    decreases |xs|
  {
    if xs == [] {
    } else {
      AllPositions(keep, xs[1..], start + 1);
    }
  }

  /** When every message has text, the provider gets as many messages as the request
      has, each in its place. */
  lemma EachInItsPlace(prompt: string, ms: seq<ReqMessage>, upstream: seq<ChatMessage>, i: nat)
    requires ProviderSees(prompt, ms, upstream) && i < |ms|
    requires forall k :: 0 <= k < |ms| ==> TextOf(ms[k].content) != ""
    ensures var skipped := if prompt != "" && !BringsSystem(ms) then 1 else 0;
            && |upstream| == skipped + |ms| && SentAs(ms[i], i, upstream[skipped + i])
            && (skipped == 1 ==> upstream[0] == ChatMessage("system", prompt, None, None))
  {
    var front := if prompt != "" && !BringsSystem(ms) then [ChatMessage("system", prompt, None, None)] else [];
    AllPositions(HasText, ms, 0);
    assert upstream[|front|..][i] == upstream[|front| + i];
    var k := MatchAt(Sends(), HasText, ms, upstream[|front|..], i);
    assert k == i;
  }

  /** The first request of a conversation. */
  lemma FirstRequestReachesProvider(prompt: string, ms: seq<ReqMessage>)
    ensures ProviderSees(prompt, ms, Upstream(prompt, AddMessages([], Delta([], Normalize(ms)))))
  {
    assert Normalize(ms)[0..] == Normalize(ms);
    assert ProjectAll([]) + ProjectAll(Normalize(ms)) == ProjectAll(Normalize(ms));
    UpstreamMeaning(prompt, AddMessages([], Delta([], Normalize(ms))), ms);
  }

  /** Over any run of a full-history client that goes well, the provider sees at
      each turn the whole transcript with the new messages, although only the new
      ones are added to the store. */
  lemma TranscriptReachesProvider(prompt: string, events: seq<Event>, messages: seq<ReqMessage>)
    requires FullHistoryRun(prompt, events)
    ensures var c := RunClient(prompt, events);
            var ms := c.transcript + messages;
            ProviderSees(prompt, ms, Upstream(prompt, AddMessages(c.history, Delta(c.history, Normalize(ms)))))
  {
    var c := RunClient(prompt, events);
    var ms := c.transcript + messages;
    FullHistoryInvariant(prompt, events);
    FullHistoryDelta(c.history, c.transcript, messages);
    NormalizeSplit(c.transcript, messages);
    ProjectAppend(Normalize(c.transcript), NormalizeFrom(messages, |c.transcript|));
    UpstreamMeaning(prompt, AddMessages(c.history, Delta(c.history, Normalize(ms))), ms);
  }

  // ------------------------------------------------------------ drafts and summaries

  /** Two texts with a space between them, unless one of them is empty. */
  function Glued(a: string, b: string): string {
    if a == "" then b else if b == "" then a else a + " " + b
  }

  lemma QuestionMeaning(a: string, b: string, c: string)
    ensures Question([a, b]) == Glued(a, b)
    ensures Question([a, b, c]) == Glued(Glued(a, b), c)
  {
    assert [a, b, c][1..] == [b, c] && [b, c][1..] == [c] && [c][1..] == [] && [a, b][1..] == [b] && [b][1..] == [];
    FlatMapOne(NonBlankLine, b);
    FlatMapOne(NonBlankLine, c);
    assert NonBlank([b, c]) == NonBlankLine(b) + NonBlank([c]);
    assert NonBlank([a, b]) == NonBlankLine(a) + NonBlank([b]);
    assert NonBlank([a, b, c]) == NonBlankLine(a) + NonBlank([b, c]);
    GluedParts(a, b);
    ThreeParts(a, b, c);
  }

  lemma GluedParts(a: string, b: string)
    ensures Join(" ", NonBlankLine(a) + NonBlankLine(b)) == Glued(a, b)
  {
    if a != "" && b != "" {
      JoinMeaning(" ", [a], [b]);
    } else {
      assert a == "" ==> [] + NonBlankLine(b) == NonBlankLine(b);
      assert b == "" ==> NonBlankLine(a) + [] == NonBlankLine(a);
    }
  }

  lemma ThreeParts(a: string, b: string, c: string)
    ensures Join(" ", NonBlankLine(a) + (NonBlankLine(b) + NonBlankLine(c))) == Glued(Glued(a, b), c)
  {
    var front := NonBlankLine(a) + NonBlankLine(b);
    Associate(NonBlankLine(a), NonBlankLine(b), NonBlankLine(c));
    GluedParts(a, b);
    if front == [] {
      assert front + NonBlankLine(c) == NonBlankLine(c);
    } else if c == "" {
      assert front + [] == front;
      assert Glued(a, b) != "";
    } else {
      assert front[0] == if a != "" then a else b;
      assert Glued(a, b) != "";
      JoinMeaning(" ", front, [c]);
    }
  }

  /** A draft is the provider's answer to one user message: the configured prefix
      and the last input of the request. */
  lemma DraftQuestion(prefix: string, model: Model, pre: seq<ReqMessage>, m: ReqMessage, post: seq<ReqMessage>)
    requires IsInput(m) && NoneIsInput(post)
    ensures DraftTokens(prefix, model, pre + [m] + post)
         == model([ChatMessage("user", Glued(prefix, TextOf(m.content)), None, None)])
  {
    LastInputAt(pre, m, post);
    QuestionMeaning(prefix, TextOf(m.content), "");
  }

  /** A summary is the answer to prefix, last input and suffix. */
  lemma SummaryQuestion(prefix: string, suffix: string, model: Model,
                        pre: seq<ReqMessage>, m: ReqMessage, post: seq<ReqMessage>)
    requires IsInput(m) && NoneIsInput(post)
    ensures SummaryTokens(prefix, suffix, model, pre + [m] + post)
         == model([ChatMessage("user", Glued(Glued(prefix, TextOf(m.content)), suffix), None, None)])
  {
    LastInputAt(pre, m, post);
    QuestionMeaning(prefix, TextOf(m.content), suffix);
  }

  ghost predicate NoneIsInput(ms: seq<ReqMessage>) {
    forall i :: 0 <= i < |ms| ==> !IsInput(ms[i])
  }

  lemma NoneHasInput(ms: seq<ReqMessage>)
    requires NoneIsInput(ms)
    ensures NoneHolds(HasInput, ms)
  {
    forall i | 0 <= i < |ms| ensures !HasInput(ms[i]) {
      InputMeaning(ms[i]);
    }
  }

  lemma LastInputAt(pre: seq<ReqMessage>, m: ReqMessage, post: seq<ReqMessage>)
    requires IsInput(m) && NoneIsInput(post)
    ensures LastInput(pre + [m] + post) == TextOf(m.content)
  {
    InputMeaning(m);
    NoneHasInput(post);
    LastInputWhere(pre, m, post);
  }

  lemma {:induction false} LastInputWhere(pre: seq<ReqMessage>, m: ReqMessage, post: seq<ReqMessage>)
    requires HasInput(m) && NoneHolds(HasInput, post)
    ensures LastInput(pre + [m] + post) == TextOf(m.content)
    decreases |post|
  {
    var all := pre + [m] + post;
    if post == [] {
      assert all == pre + [m] && all[|all| - 1] == m;
    } else {
      var n := |post| - 1;
      LastInputWhere(pre, m, post[..n]);
      assert all[|all| - 1] == post[n] && all[..|all| - 1] == pre + [m] + post[..n];
    }
  }

  /** Without such a message the question is made of the configured texts alone. */
  lemma NoInput(prefix: string, suffix: string, model: Model, ms: seq<ReqMessage>)
    requires NoneIsInput(ms)
    ensures DraftTokens(prefix, model, ms) == model([ChatMessage("user", prefix, None, None)])
    ensures SummaryTokens(prefix, suffix, model, ms) == model([ChatMessage("user", Glued(prefix, suffix), None, None)])
  {
    NoneHasInput(ms);
    NoLastInput(ms);
    QuestionMeaning(prefix, "", suffix);
  }

  lemma {:induction false} NoLastInput(ms: seq<ReqMessage>)
    requires NoneHolds(HasInput, ms)
    ensures LastInput(ms) == ""
  {
    if ms == [] {
    } else {
      NoLastInput(ms[..|ms| - 1]);
    }
  }
}
