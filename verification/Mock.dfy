/** The mock provider: an answer made from the last user message and the number
    of earlier ones, streamed word by word. */
module Mock {
  import opened Text
  import opened TextMeaning
  import opened Gateway
  import opened Partition

  predicate IsUser(m: ChatMessage) { m.role == "user" }

  function UserCount(messages: seq<ChatMessage>): nat {
    |Filter(true, IsUser, messages)|
  }

  /** The content of the last user message, "" when there is none. */
  function LastUser(messages: seq<ChatMessage>): string {
    var users := Filter(true, IsUser, messages);
    if users == [] then "" else users[|users| - 1].content
  }

  function MockText(sysCode: string, model: string, question: string, priorUsers: nat): string {
    var content := "[" + sysCode + "/" + model + "] " + (if question != "" then question else "(empty)");
    if priorUsers == 0 then content else content + " (history_users=" + Decimal(priorUsers) + ")"
  }

  function MockAnswer(sysCode: string, model: string, messages: seq<ChatMessage>): string {
    MockText(sysCode, model, LastUser(messages), if UserCount(messages) > 0 then UserCount(messages) - 1 else 0)
  }

  /** The tokens the mock yields. */
  function MockTokens(sysCode: string, model: string, messages: seq<ChatMessage>): seq<string> {
    Spaced(SplitSpaces(MockAnswer(sysCode, model, messages)))
  }

  /** Token frames for the tokens that are not empty. */
  function TokenFrames(toClient: bool, tokens: seq<string>): seq<StreamFrame> {
    FlatMap(t => EmitToken(toClient, t), tokens)
  }

  /** `_stream_mock`. */
  method StreamMock(sysCode: string, model: string, messages: seq<ChatMessage>, toClient: bool)
    returns (tokens: seq<string>, frames: seq<StreamFrame>)
    ensures tokens == MockTokens(sysCode, model, messages)
    ensures Flatten(tokens) == MockAnswer(sysCode, model, messages)
    ensures frames == TokenFrames(toClient, tokens)
  {
    var userText := FindLastUser(messages);
    var userCount := CountUsers(messages);
    var content := "[" + sysCode + "/" + model + "] " + (if userText != "" then userText else "(empty)");
    if userCount > 1 {
      content := content + " (history_users=" + Decimal(userCount - 1) + ")";
    }
    SplitSpacesRejoin(content);
    var words := SplitSpaces(content);
    tokens, frames := [], [];
    for index := 0 to |words|
      invariant tokens == Leading(words, index) && frames == TokenFrames(toClient, tokens)
    {
      LeadingNext(words, index);
      if index != 0 {
        FlatMapSnoc(t => EmitToken(toClient, t), tokens, " ");
        frames := frames + EmitToken(toClient, " ");
        tokens := tokens + [" "];
      }
      FlatMapSnoc(t => EmitToken(toClient, t), tokens, words[index]);
      frames := frames + EmitToken(toClient, words[index]);
      tokens := tokens + [words[index]];
    }
    assert words[..|words|] == words;
  }

  /** The tokens of the first words. */
  function Leading(words: seq<string>, n: nat): seq<string>
    requires n <= |words|
  {
    Spaced(words[..n])
  }

  lemma {:induction false} SpacedSnoc(words: seq<string>, word: string)
    requires words != []
    ensures Spaced(words + [word]) == Spaced(words) + [" "] + [word]
  {
    if |words| > 1 {
      SpacedSnoc(words[1..], word);
      assert (words + [word])[1..] == words[1..] + [word];
    } else {
      assert (words + [word])[1..] == [word];
    }
  }

  lemma LeadingNext(words: seq<string>, n: nat)
    requires n < |words|
    ensures Leading(words, n + 1) == Leading(words, n) + (if n == 0 then [] else [" "]) + [words[n]]
  {
    assert words[..n + 1] == words[..n] + [words[n]];
    if n > 0 {
      SpacedSnoc(words[..n], words[n]);
    }
  }

  method FindLastUser(messages: seq<ChatMessage>) returns (text: string)
    ensures text == LastUser(messages)
  {
    var i := |messages|;
    assert messages[..i] == messages;
    while i > 0
      invariant 0 <= i <= |messages|
      invariant LastUser(messages) == LastUser(messages[..i])
    {
      i := i - 1;
      assert messages[..i + 1] == messages[..i] + [messages[i]];
      FilterSnoc(true, IsUser, messages[..i], messages[i]);
      if messages[i].role == "user" { return messages[i].content; }
    }
    return "";
  }

  method CountUsers(messages: seq<ChatMessage>) returns (n: nat)
    ensures n == UserCount(messages)
  {
    n := 0;
    for i := 0 to |messages|
      invariant n == UserCount(messages[..i])
    {
      assert messages[..i + 1] == messages[..i] + [messages[i]];
      FilterSnoc(true, IsUser, messages[..i], messages[i]);
      if messages[i].role == "user" { n := n + 1; }
    }
    assert messages[..|messages|] == messages;
  }

  /** Dropping empty tokens loses no text. */
  lemma {:induction false} FramesKeepText(tokens: seq<string>)
    ensures FlatMap(FrameValue, TokenFrames(true, tokens)) == Flatten(tokens)
  {
    if tokens == [] {
    } else {
      FramesKeepText(tokens[1..]);
      FlatMapAppend(FrameValue, EmitToken(true, tokens[0]), TokenFrames(true, tokens[1..]));
      if tokens[0] != "" {
        FlatMapOne(FrameValue, Token(tokens[0]));
      }
    }
  }

  // --------------------------------------------------------------- in plain values

  /** How many of the messages have the role "user". */
  function Users(messages: seq<ChatMessage>): nat {
    if messages == [] then 0
    else (if messages[0].role == "user" then 1 else 0) + Users(messages[1..])
  }

  lemma {:induction false} UserCountMeaning(messages: seq<ChatMessage>)
    ensures UserCount(messages) == Users(messages)
  {
    if messages == [] {
    } else {
      UserCountMeaning(messages[1..]);
    }
  }

  /** The mock repeats the last user message, with the codes it was called with in
      front, and the number of earlier user messages, if any, behind. */
  lemma MockRepeatsLastUser(sysCode: string, model: string,
                            pre: seq<ChatMessage>, m: ChatMessage, post: seq<ChatMessage>)
    requires m.role == "user" && Users(post) == 0
    ensures Flatten(MockTokens(sysCode, model, pre + [m] + post))
         == "[" + sysCode + "/" + model + "] " + (if m.content == "" then "(empty)" else m.content)
            + (if Users(pre) == 0 then "" else " (history_users=" + Decimal(Users(pre)) + ")")
  {
    UsersAround(pre, m, post);
    SplitSpacesRejoin(MockAnswer(sysCode, model, pre + [m] + post));
    assert MockText(sysCode, model, m.content, 0) + "" == MockText(sysCode, model, m.content, 0);
  }

  lemma UsersAround(pre: seq<ChatMessage>, m: ChatMessage, post: seq<ChatMessage>)
    requires m.role == "user" && Users(post) == 0
    ensures LastUser(pre + [m] + post) == m.content && UserCount(pre + [m] + post) == Users(pre) + 1
  {
    FilterAppend(true, IsUser, pre + [m], post);
    FilterSnoc(true, IsUser, pre, m);
    UserCountMeaning(pre);
    UserCountMeaning(post);
    var users := Filter(true, IsUser, pre);
    assert users + [m] + [] == users + [m] && Filter(true, IsUser, post) == [];
  }

  /** Without a user message there is nothing to repeat. */
  lemma MockWithoutUser(sysCode: string, model: string, messages: seq<ChatMessage>)
    requires Users(messages) == 0
    ensures Flatten(MockTokens(sysCode, model, messages)) == "[" + sysCode + "/" + model + "] (empty)"
  {
    UserCountMeaning(messages);
    SplitSpacesRejoin(MockAnswer(sysCode, model, messages));
    assert "] " + "(empty)" == "] (empty)";
  }

  /** The tokens are words without spaces, with one space between neighbours. */
  lemma MockTokensMeaning(sysCode: string, model: string, messages: seq<ChatMessage>)
    ensures var tokens := MockTokens(sysCode, model, messages);
            && |tokens| % 2 == 1
            && forall i :: 0 <= i < |tokens| ==>
                 if i % 2 == 1 then tokens[i] == " " else ' ' !in tokens[i]
  {
    SplitSpacesMeaning(MockAnswer(sysCode, model, messages));
    SpacedByParity(SplitSpaces(MockAnswer(sysCode, model, messages)));
  }

  lemma SpacedByParity(words: seq<string>)
    requires words != [] && SpaceFree(words)
    ensures |Spaced(words)| % 2 == 1
    ensures forall i :: 0 <= i < |Spaced(words)| ==>
              if i % 2 == 1 then Spaced(words)[i] == " " else ' ' !in Spaced(words)[i]
  {
    SpacedMeaning(words);
    var tokens := Spaced(words);
    forall i | 0 <= i < |tokens| ensures if i % 2 == 1 then tokens[i] == " " else ' ' !in tokens[i] {
      if i % 2 == 0 {
        assert tokens[2 * (i / 2)] == words[i / 2];
      } else {
        assert tokens[2 * (i / 2) + 1] == " ";
      }
    }
  }

  /** Frames are written for the non-empty tokens only, in order, and for none when
      the client does not stream. */
  lemma {:induction false} TokenFramesMeaning(tokens: seq<string>, token: string)
    ensures TokenFrames(false, tokens) == []
    ensures TokenFrames(true, []) == [] && TokenFrames(true, tokens + [""]) == TokenFrames(true, tokens)
    ensures token != "" ==> TokenFrames(true, tokens + [token]) == TokenFrames(true, tokens) + [Token(token)]
  {
    if tokens == [] {
    } else {
      TokenFramesMeaning(tokens[1..], token);
    }
    FlatMapSnoc(t => EmitToken(true, t), tokens, "");
    FlatMapSnoc(t => EmitToken(true, t), tokens, token);
  }
}
