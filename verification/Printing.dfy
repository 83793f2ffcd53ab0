/** The text the runtime prints for its content chunks is JSON for the chunk. */
module Printing {
  import opened Text
  import opened TextMeaning
  import opened Json
  import opened Streaming
  import opened Wire
  import opened Classifier

  // ------------------------------------------------------------------ strings

  function Prepend(c: char, rest: Option<string>): Option<string> {
    match rest
    case None => None
    case Some(s) => Some([c] + s)
  }

  function HexDigit(c: char): int {
    if '0' <= c <= '9' then c as int - '0' as int else if 'a' <= c <= 'f' then c as int - 'a' as int + 10 else -1
  }

  /** What a reader of JSON makes of the text between two quotes. */
  function Unescaped(s: string): Option<string>
    decreases |s|
  {
    if s == "" then Some("")
    else if s[0] == '"' then None
    else if s[0] != '\\' then Prepend(s[0], Unescaped(s[1..]))
    else if |s| < 2 then None
    else if s[1] == '"' || s[1] == '\\' || s[1] == '/' then Prepend(s[1], Unescaped(s[2..]))
    else if s[1] == 'n' then Prepend('\n', Unescaped(s[2..]))
    else if s[1] == 'r' then Prepend('\r', Unescaped(s[2..]))
    else if s[1] == 't' then Prepend('\t', Unescaped(s[2..]))
    else if s[1] == 'b' then Prepend('\U{0008}', Unescaped(s[2..]))
    else if s[1] == 'f' then Prepend('\U{000C}', Unescaped(s[2..]))
    else if s[1] == 'u' && |s| >= 6 && s[2] == '0' && s[3] == '0' && 0 <= HexDigit(s[4]) <= 7 && 0 <= HexDigit(s[5])
    then
      Prepend((16 * HexDigit(s[4]) + HexDigit(s[5])) as char, Unescaped(s[6..]))
    else None
  }

  lemma HexDigits(k: nat)
    requires k < 16
    ensures HexDigit(HEX[k]) == k
  {
    assert |HEX| == 16;
  }

  lemma LongEscapeReads(c: char, rest: string)
    requires |Escaped(c)| == 6
    ensures Unescaped(Escaped(c) + rest) == Prepend(c, Unescaped(rest))
  {
    var s := Escaped(c) + rest;
    HexDigits(c as int / 16);
    HexDigits(c as int % 16);
    assert s[0] == '\\' && s[1] == 'u' && s[2] == '0' && s[3] == '0';
    assert s[4] == HEX[c as int / 16] && s[5] == HEX[c as int % 16] && s[6..] == rest;
  }

  /** The letter after a backslash, and the character the two stand for. */
  predicate Stands(letter: char, c: char) {
    || (letter == '"' && c == '"') || (letter == '\\' && c == '\\') || (letter == 'n' && c == '\n')
    || (letter == 'r' && c == '\r') || (letter == 't' && c == '\t') || (letter == 'b' && c == '\U{0008}')
    || (letter == 'f' && c == '\U{000C}')
  }

  lemma TwoLetters(letter: char, c: char, rest: string)
    requires Stands(letter, c)
    ensures Unescaped(['\\', letter] + rest) == Prepend(c, Unescaped(rest))
  {
    var s := ['\\', letter] + rest;
    assert s[0] == '\\' && s[1] == letter && s[2..] == rest;
  }

  lemma ShortEscape(c: char) returns (letter: char)
    requires |Escaped(c)| == 2
    ensures Escaped(c) == ['\\', letter] && Stands(letter, c)
  {
    letter := Escaped(c)[1];
  }

  lemma ShortEscapeReads(c: char, rest: string)
    requires |Escaped(c)| == 2
    ensures Unescaped(Escaped(c) + rest) == Prepend(c, Unescaped(rest))
  {
    var letter := ShortEscape(c);
    TwoLetters(letter, c, rest);
  }

  lemma EscapedReads(c: char, rest: string)
    ensures Unescaped(Escaped(c) + rest) == Prepend(c, Unescaped(rest))
  {
    if |Escaped(c)| == 6 {
      LongEscapeReads(c, rest);
    } else if |Escaped(c)| == 2 {
      ShortEscapeReads(c, rest);
    } else {
      assert ([c] + rest)[1..] == rest;
    }
  }

  lemma {:induction false} EscapingRoundTrip(s: string)
    ensures Unescaped(FlatMap(Escaped, s)) == Some(s)
  {
    if s == "" {
    } else {
      EscapingRoundTrip(s[1..]);
      EscapedReads(s[0], FlatMap(Escaped, s[1..]));
      assert [s[0]] + s[1..] == s;
    }
  }

  // ------------------------------------------------------------------- values

  function Entry(field: (string, string)): string {
    "\"" + field.0 + "\": " + field.1
  }

  /** The keys of the printed members are those of the object, each once. */
  ghost predicate ListsKeys(keys: set<string>, fields: seq<(string, string)>) {
    && (forall i, j :: 0 <= i < j < |fields| ==> fields[i].0 != fields[j].0)
    && (forall i :: 0 <= i < |fields| ==> fields[i].0 in keys)
    && |fields| == |keys|
  }

  /** `text` is JSON for the value. */
  ghost predicate PrintsAs(value: Json, text: string)
    decreases value
  {
    match value
    case JNull => text == "null"
    case JBool(b) => text == if b then "true" else "false"
    case JInt(n) => text == if n < 0 then "-" + Decimal(-n) else Decimal(n)
    case JFloat(_) => false
    case JStr(s) => exists body :: text == "\"" + body + "\"" && Unescaped(body) == Some(s)
    case JArr(items) =>
      exists texts: seq<string> ::
        && |texts| == |items| && text == "[" + Join(", ", texts) + "]"
        && forall i :: 0 <= i < |items| ==> PrintsAs(items[i], texts[i])
    case JObj(members) =>
      exists fields: seq<(string, string)> ::
        && ListsKeys(members.Keys, fields) && text == "{" + Join(", ", Map(Entry, fields)) + "}"
        && forall i :: 0 <= i < |fields| && fields[i].0 in members ==> PrintsAs(members[fields[i].0], fields[i].1)
  }

  lemma {:induction false} FieldsAreJoined(fields: seq<(string, string)>)
    ensures PrintedFields(fields) == Join(", ", Map(Entry, fields))
  {
    if fields == [] {
    } else {
      FieldsAreJoined(fields[1..]);
      assert Map(Entry, fields)[1..] == Map(Entry, fields[1..]);
      assert |fields| == 1 ==> Entry(fields[0]) + "" == Entry(fields[0]);
    }
  }

  lemma QuotedPrints(s: string)
    ensures PrintsAs(JStr(s), Quoted(s))
  {
    EscapingRoundTrip(s);
    var body := FlatMap(Escaped, s);
    assert Quoted(s) == "\"" + body + "\"" && Unescaped(body) == Some(s);
  }

  lemma ObjectPrints(members: map<string, Json>, fields: seq<(string, string)>)
    requires ListsKeys(members.Keys, fields)
    requires forall i :: 0 <= i < |fields| ==> PrintsAs(members[fields[i].0], fields[i].1)
    ensures PrintsAs(JObj(members), PrintedObject(fields))
  {
    FieldsAreJoined(fields);
    assert PrintedObject(fields) == "{" + Join(", ", Map(Entry, fields)) + "}";
  }

  lemma ListOfOnePrints(item: Json, text: string)
    requires PrintsAs(item, text)
    ensures PrintsAs(JArr([item]), "[" + text + "]")
  {
    var texts := [text];
    assert Join(", ", texts) == text;
    assert forall i :: 0 <= i < 1 ==> PrintsAs([item][i], texts[i]);
  }

  /** The members of an object, printed one by one. */
  ghost predicate MembersPrint(members: map<string, Json>, fields: seq<(string, string)>) {
    && ListsKeys(members.Keys, fields)
    && forall i :: 0 <= i < |fields| ==> PrintsAs(members[fields[i].0], fields[i].1)
  }

  lemma NoMembers()
    ensures MembersPrint(map[], [])
  {
  }

  lemma OneMoreMember(members: map<string, Json>, fields: seq<(string, string)>, key: string, value: Json, text: string)
    requires MembersPrint(members, fields) && key !in members && PrintsAs(value, text)
    ensures MembersPrint(members[key := value], fields + [(key, text)])
  {
    var more, all := members[key := value], fields + [(key, text)];
    assert more.Keys == members.Keys + {key};
    assert forall i :: 0 <= i < |fields| ==> all[i] == fields[i];
    forall i | 0 <= i < |all| ensures all[i].0 in more.Keys && PrintsAs(more[all[i].0], all[i].1) {
      if i < |fields| {
        assert fields[i].0 in members && PrintsAs(members[fields[i].0], fields[i].1);
      }
    }
  }

  // -------------------------------------------------------------------- chunks

  lemma DeltaPrints(content: string)
    ensures PrintsAs(JObj(map["content" := JStr(content)]), PrintedObject([("content", Quoted(content))]))
  {
    QuotedPrints(content);
    NoMembers();
    OneMoreMember(map[], [], "content", JStr(content), Quoted(content));
    assert [] + [("content", Quoted(content))] == [("content", Quoted(content))];
    ObjectPrints(map["content" := JStr(content)], [("content", Quoted(content))]);
  }

  lemma ThreeMembers(k1: string, v1: Json, t1: string, k2: string, v2: Json, t2: string,
                     k3: string, v3: Json, t3: string)
    requires k1 != k2 && k1 != k3 && k2 != k3 && PrintsAs(v1, t1) && PrintsAs(v2, t2) && PrintsAs(v3, t3)
    ensures MembersPrint(map[k1 := v1, k2 := v2, k3 := v3], [(k1, t1), (k2, t2), (k3, t3)])
  {
    NoMembers();
    OneMoreMember(map[], [], k1, v1, t1);
    OneMoreMember(map[k1 := v1], [(k1, t1)], k2, v2, t2);
    assert [] + [(k1, t1)] == [(k1, t1)] && [(k1, t1)] + [(k2, t2)] == [(k1, t1), (k2, t2)];
    OneMoreMember(map[k1 := v1, k2 := v2], [(k1, t1), (k2, t2)], k3, v3, t3);
    assert [(k1, t1), (k2, t2)] + [(k3, t3)] == [(k1, t1), (k2, t2), (k3, t3)];
  }

  lemma TwoMore(members: map<string, Json>, fields: seq<(string, string)>,
                k1: string, v1: Json, t1: string, k2: string, v2: Json, t2: string)
    requires MembersPrint(members, fields) && k1 !in members && k2 !in members && k1 != k2
    requires PrintsAs(v1, t1) && PrintsAs(v2, t2)
    ensures MembersPrint(members[k1 := v1][k2 := v2], fields + [(k1, t1)] + [(k2, t2)])
  {
    OneMoreMember(members, fields, k1, v1, t1);
    OneMoreMember(members[k1 := v1], fields + [(k1, t1)], k2, v2, t2);
  }

  function ChoiceOf(content: string): Json {
    JObj(map["index" := JInt(0), "delta" := JObj(map["content" := JStr(content)]), "finish_reason" := JNull])
  }

  lemma ChoicePrints(content: string)
    ensures PrintsAs(ChoiceOf(content), PrintedChoice(content))
  {
    DeltaPrints(content);
    var delta := PrintedObject([("content", Quoted(content))]);
    assert "index"[0] == 'i' && "delta"[0] == 'd' && "finish_reason"[0] == 'f';
    assert PrintsAs(JInt(0), "0") && PrintsAs(JNull, "null");
    ThreeMembers("index", JInt(0), "0", "delta", JObj(map["content" := JStr(content)]), delta,
                 "finish_reason", JNull, "null");
    ObjectPrints(ChoiceOf(content).fields, [("index", "0"), ("delta", delta), ("finish_reason", "null")]);
  }

  lemma MetaPrints(meta: Meta)
    ensures PrintsAs(JStr(meta.completionId), Quoted(meta.completionId))
    ensures PrintsAs(JInt(meta.created), SignedDecimal(meta.created))
    ensures PrintsAs(JStr(meta.workflow), Quoted(meta.workflow))
    ensures PrintsAs(JStr(meta.sessionId), Quoted(meta.sessionId))
    ensures PrintsAs(UserJson(meta.userId), PrintedUser(meta.userId))
  {
    QuotedPrints(meta.completionId);
    QuotedPrints(meta.workflow);
    QuotedPrints(meta.sessionId);
    UserPrints(meta.userId);
  }

  lemma KindPrints()
    ensures PrintsAs(JStr("chat.completion.chunk"), Quoted("chat.completion.chunk"))
  {
    QuotedPrints("chat.completion.chunk");
  }

  lemma ChoicesPrint(content: string)
    ensures PrintsAs(JArr([ChoiceOf(content)]), "[" + PrintedChoice(content) + "]")
  {
    ChoicePrints(content);
    ListOfOnePrints(ChoiceOf(content), PrintedChoice(content));
  }

  lemma UserPrints(userId: Option<string>)
    ensures PrintsAs(UserJson(userId), PrintedUser(userId))
  {
    QuotedPrints(userId.GetOr(""));
  }

  lemma SevenMembers(k1: string, v1: Json, t1: string, k2: string, v2: Json, t2: string,
                     k3: string, v3: Json, t3: string, k4: string, v4: Json, t4: string,
                     k5: string, v5: Json, t5: string,
                     k6: string, v6: Json, t6: string, k7: string, v7: Json, t7: string)
    requires k1 != k2 && k1 != k3 && k1 != k4 && k1 != k5 && k1 != k6 && k1 != k7
    requires k2 != k3 && k2 != k4 && k2 != k5 && k2 != k6 && k2 != k7 && k3 != k4 && k3 != k5 && k3 != k6 && k3 != k7
    requires k4 != k5 && k4 != k6 && k4 != k7 && k5 != k6 && k5 != k7 && k6 != k7
    requires PrintsAs(v1, t1) && PrintsAs(v2, t2) && PrintsAs(v3, t3) && PrintsAs(v4, t4)
    requires PrintsAs(v5, t5) && PrintsAs(v6, t6) && PrintsAs(v7, t7)
    ensures PrintsAs(JObj(map[k1 := v1, k2 := v2, k3 := v3, k4 := v4, k5 := v5, k6 := v6, k7 := v7]),
                     PrintedObject([(k1, t1), (k2, t2), (k3, t3), (k4, t4), (k5, t5), (k6, t6), (k7, t7)]))
  {
    var three := map[k1 := v1, k2 := v2, k3 := v3];
    var five := map[k1 := v1, k2 := v2, k3 := v3, k4 := v4, k5 := v5];
    var all := map[k1 := v1, k2 := v2, k3 := v3, k4 := v4, k5 := v5, k6 := v6, k7 := v7];
    assert five == three[k4 := v4][k5 := v5] && all == five[k6 := v6][k7 := v7];
    ThreeMembers(k1, v1, t1, k2, v2, t2, k3, v3, t3);
    TwoMore(three, [(k1, t1), (k2, t2), (k3, t3)], k4, v4, t4, k5, v5, t5);
    FiveOf((k1, t1), (k2, t2), (k3, t3), (k4, t4), (k5, t5));
    TwoMore(five, [(k1, t1), (k2, t2), (k3, t3), (k4, t4), (k5, t5)], k6, v6, t6, k7, v7, t7);
    SevenOf((k1, t1), (k2, t2), (k3, t3), (k4, t4), (k5, t5), (k6, t6), (k7, t7));
    ObjectPrints(all, [(k1, t1), (k2, t2), (k3, t3), (k4, t4), (k5, t5), (k6, t6), (k7, t7)]);
  }

  lemma FiveOf<T>(a: T, b: T, c: T, d: T, e: T)
    ensures [a, b, c] + [d] + [e] == [a, b, c, d, e]
  {
  }

  lemma SevenOf<T>(a: T, b: T, c: T, d: T, e: T, f: T, g: T)
    ensures [a, b, c, d, e] + [f] + [g] == [a, b, c, d, e, f, g]
  {
  }

  /** What is printed for a content chunk is JSON for that chunk, so a reader of
      JSON gets its ids and its content back. */
  lemma PrintedContentIsChunk(meta: Meta, content: string)
    ensures ContentChunk(meta, content).Chunk?
    ensures PrintsAs(ContentChunk(meta, content).json, PrintedContent(meta, content))
  {
    MetaPrints(meta);
    KindPrints();
    ChoicesPrint(content);
    DistinctKeys();
    SevenMembers("id", JStr(meta.completionId), Quoted(meta.completionId),
                 "object", JStr("chat.completion.chunk"), Quoted("chat.completion.chunk"),
                 "created", JInt(meta.created), SignedDecimal(meta.created),
                 "model", JStr(meta.workflow), Quoted(meta.workflow),
                 "choices", JArr([ChoiceOf(content)]), "[" + PrintedChoice(content) + "]",
                 "session_id", JStr(meta.sessionId), Quoted(meta.sessionId),
                 "user_id", UserJson(meta.userId), PrintedUser(meta.userId));
  }
}
