/** What the gateway reads from a provider's chunk: its content, its error, and
    the answer of a list of payloads, told by position. */
module Chunks {
  import opened Text
  import opened TextMeaning
  import opened Json
  import opened Gateway
  import opened Wire

  // ------------------------------------------------------------------- content

  lemma {:induction false} TextPartsMeaning(f: Json -> string, items: seq<Json>)
    requires forall item ::
      f(item) == if item.JObj? && "text" in item.fields && item.fields["text"].JStr? then item.fields["text"].s else ""
    ensures TextParts(items) == FlatMap(f, items)
  {
    if items == [] {
    } else {
      TextPartsMeaning(f, items[1..]);
    }
  }

  ghost predicate HasContent(choice: map<string, Json>) {
    && "delta" in choice && choice["delta"].JObj? && "content" in choice["delta"].fields
    && (choice["delta"].fields["content"].JStr? || choice["delta"].fields["content"].JArr?)
  }

  /** The content of a chunk is that of the delta of its first choice, a string or
      the text parts of a list in order; a delta without either leaves the text of
      the choice. */
  lemma ContentMeaning(fields: map<string, Json>, choice: map<string, Json>, others: seq<Json>, f: Json -> string)
    requires "choices" in fields && fields["choices"] == JArr([JObj(choice)] + others)
    requires forall item ::
      f(item) == if item.JObj? && "text" in item.fields && item.fields["text"].JStr? then item.fields["text"].s else ""
    ensures HasContent(choice) ==>
      var content := choice["delta"].fields["content"];
      ExtractStreamContent(JObj(fields)) == if content.JStr? then content.s else FlatMap(f, content.items)
    ensures !HasContent(choice) ==>
      ExtractStreamContent(JObj(fields)) == if "text" in choice && choice["text"].JStr? then choice["text"].s else ""
  {
    assert ([JObj(choice)] + others)[0] == JObj(choice);
    if HasContent(choice) && choice["delta"].fields["content"].JArr? {
      TextPartsMeaning(f, choice["delta"].fields["content"].items);
    }
  }

  /** Anything else has no content. */
  lemma NoChoiceNoContent(chunk: Json)
    requires chunk.JObj? && "choices" in chunk.fields && chunk.fields["choices"].JArr? ==>
      chunk.fields["choices"].items == [] || !chunk.fields["choices"].items[0].JObj?
    ensures ExtractStreamContent(chunk) == ""
  {
  }

  // --------------------------------------------------------------------- errors

  /** Python's `or` passes over these. */
  predicate IsFalsy(value: Json) {
    value in {JNull, JBool(false), JInt(0), JFloat(0.0), JStr(""), JArr([]), JObj(map[])}
  }

  /** The status of an error: a number from 400 on, or text of one. */
  ghost predicate IsStatus(lib: Lib, value: Json, status: int) {
    || (value == JInt(status) && status >= 400)
    || (value.JStr? && lib.toInt(value.s) == Some(status) && status >= 400)
  }

  /** What the `status` field of an error gives, or its `status_code`. */
  function StatusField(error: map<string, Json>): Json {
    if "status" in error && !IsFalsy(error["status"]) then error["status"]
    else if "status_code" in error then error["status_code"]
    else JNull
  }

  /** An error text has status 502; an error object has its own status and message
      where it has usable ones, and 502 and a fixed message otherwise. */
  lemma ErrorMeaning(lib: Lib, fields: map<string, Json>)
    ensures "error" !in fields || !(fields["error"].JStr? || fields["error"].JObj?) || fields["error"] == JStr("") ==>
      ExtractStreamError(lib, JObj(fields)) == None
    ensures "error" in fields && fields["error"].JStr? && fields["error"].s != "" ==>
      ExtractStreamError(lib, JObj(fields)) == Some(ResponseError(502, fields["error"].s))
    ensures "error" in fields && fields["error"].JObj? ==>
      var e, error := ExtractStreamError(lib, JObj(fields)), fields["error"].fields;
      && e.Some? && e.value.ResponseError?
      && e.value.message == (if "message" in error && error["message"].JStr? && !Blank(error["message"].s)
                             then error["message"].s else "openai-compatible llm stream returned an error")
      && (IsStatus(lib, StatusField(error), e.value.status)
          || (e.value.status == 502 && forall n :: !IsStatus(lib, StatusField(error), n)))
  {
    if "error" in fields && fields["error"].JObj? {
      var error := fields["error"].fields;
      assert JObj(error).Get("status").Truthy() <==> "status" in error && !IsFalsy(error["status"]) by {
        TruthyMeaning(JObj(error).Get("status"));
      }
      if "message" in error && error["message"].JStr? {
        StripEmptyIff(error["message"].s);
      }
      assert ExtractStreamError(lib, JObj(fields)).Some?;
    }
  }

  lemma TruthyMeaning(value: Json)
    ensures value.Truthy() <==> !IsFalsy(value)
  {
    if value.JObj? && value.fields != map[] {
      var key :| key in value.fields;
      assert value.fields.Keys != {};
    }
  }

  lemma NotAnObjectNoError(lib: Lib, chunk: Json)
    requires !chunk.JObj?
    ensures ExtractStreamError(lib, chunk) == None && ExtractStreamContent(chunk) == ""
  {
  }

  // ------------------------------------------------------------------- payloads

  /** The payload of a line is what follows "data:", without the white space around
      it; other lines, and blank ones, have none. */
  lemma PayloadOfLine(line: string)
    requires OneLine(line)
    ensures "data:" <= line && !Blank(line[5..]) ==> LinePayloads([line]) == [Strip(line[5..])]
    ensures !("data:" <= line) || Blank(line[5..]) ==> LinePayloads([line]) == []
  {
    FlatMapOne(PayloadsOfText, line);
    if line != "" {
      SplitLinesMeaning(line, "");
      FlatMapOne(DataPayload, line);
    }
    if "data:" <= line {
      StripEmptyIff(line[5..]);
    }
  }

  /** The lines of a response are read one by one. */
  lemma PayloadsOfLines(a: seq<string>, b: seq<string>)
    ensures LinePayloads(a + b) == LinePayloads(a) + LinePayloads(b) && LinePayloads([]) == []
  {
    FlatMapAppend(PayloadsOfText, a, b);
  }

  ghost predicate Reports(lib: Lib, payload: string) {
    lib.loads(payload).Some? && ExtractStreamError(lib, lib.loads(payload).value).Some?
  }

  /** Nothing before position `n` ends the answer. */
  ghost predicate AnswersUpTo(lib: Lib, payloads: seq<string>, n: nat) {
    n <= |payloads| && forall i :: 0 <= i < n ==> payloads[i] != "[DONE]" && !Reports(lib, payloads[i])
  }

  /** A function that gives the content of a payload, unless it is empty. */
  ghost predicate GivesContent(lib: Lib, f: string -> seq<string>) {
    forall p :: f(p) == if lib.loads(p).None? || ExtractStreamContent(lib.loads(p).value) == "" then []
                        else [ExtractStreamContent(lib.loads(p).value)]
  }

  /** What stops the answer at position `n`. */
  ghost predicate AnswerIs(lib: Lib, payloads: seq<string>, f: string -> seq<string>, n: nat) {
    && AnswersUpTo(lib, payloads, n)
    && (n < |payloads| ==> payloads[n] == "[DONE]" || Reports(lib, payloads[n]))
    && AnswerTokens(lib, payloads) == FlatMap(f, payloads[..n])
    && StreamError(lib, payloads)
       == if n < |payloads| && payloads[n] != "[DONE]" then ExtractStreamError(lib, lib.loads(payloads[n]).value)
          else None
  }

  lemma AnswerStops(lib: Lib, p: string, rest: seq<string>, f: string -> seq<string>)
    requires p == "[DONE]" || Reports(lib, p)
    ensures AnswerIs(lib, [p] + rest, f, 0)
  {
    var all := [p] + rest;
    assert all[..0] == [];
    if p == "[DONE]" {
      assert Live(all) == [];
    } else {
      LiveCons(lib, p, rest);
    }
  }

  lemma AnswerGoesOn(lib: Lib, p: string, rest: seq<string>, f: string -> seq<string>, k: nat)
    requires GivesContent(lib, f) && p != "[DONE]" && !Reports(lib, p) && AnswerIs(lib, rest, f, k)
    ensures AnswerIs(lib, [p] + rest, f, k + 1)
  {
    PrefixCons(p, rest, k);
    LiveCons(lib, p, rest);
    FlatMapAppend(f, [p], rest[..k]);
    FlatMapOne(f, p);
    UpToCons(lib, p, rest, k);
  }

  lemma PrefixCons<T>(x: T, rest: seq<T>, k: nat)
    requires k <= |rest|
    ensures ([x] + rest)[..k + 1] == [x] + rest[..k]
    ensures k < |rest| ==> ([x] + rest)[k + 1] == rest[k]
  {
  }

  lemma UpToCons(lib: Lib, p: string, rest: seq<string>, k: nat)
    requires AnswersUpTo(lib, rest, k) && p != "[DONE]" && !Reports(lib, p)
    ensures AnswersUpTo(lib, [p] + rest, k + 1)
  {
    var all := [p] + rest;
    assert all[0] == p && forall i :: 0 < i < |all| ==> all[i] == rest[i - 1];
  }

  /** The answer goes up to the first payload that is "[DONE]" or reports an error.
      It is the non-empty contents in order; the error is that of this payload. */
  lemma {:induction false} AnswerMeaning(lib: Lib, payloads: seq<string>, f: string -> seq<string>) returns (n: nat)
    requires GivesContent(lib, f)
    ensures AnswerIs(lib, payloads, f, n)
    decreases |payloads|
  {
    if payloads == [] {
      n := 0;
    } else {
      var p, rest := payloads[0], payloads[1..];
      assert payloads == [p] + rest;
      if p == "[DONE]" || Reports(lib, p) {
        n := 0;
        AnswerStops(lib, p, rest, f);
      } else {
        var k := AnswerMeaning(lib, rest, f);
        AnswerGoesOn(lib, p, rest, f, k);
        n := k + 1;
      }
    }
  }

  /** One event with one chunk: its content is the one token, unless it is empty or
      the chunk reports an error. */
  lemma OneChunkResponse(lib: Lib, p: string, chunk: Json)
    requires OneLinePayload(p) && p != "[DONE]" && lib.loads(p) == Some(chunk)
    ensures AnswerTokens(lib, LinePayloads(["data: " + p]))
         == if ExtractStreamError(lib, chunk).Some? || ExtractStreamContent(chunk) == "" then []
            else [ExtractStreamContent(chunk)]
    ensures StreamError(lib, LinePayloads(["data: " + p])) == ExtractStreamError(lib, chunk)
  {
    DataLineReads(p);
    FlatMapOne(PayloadsOfText, "data: " + p);
    assert [p] + [] == [p] && AnswerTokens(lib, []) == [];
    LiveCons(lib, p, []);
  }

  /** Such a chunk whose content is a list of two text parts answers with both, the
      first one first. */
  lemma TwoPartsInOrder(lib: Lib, p: string, a: string, b: string)
    requires OneLinePayload(p) && p != "[DONE]" && a + b != ""
    requires lib.loads(p) == Some(JObj(map["choices" := JArr([JObj(map["delta" :=
      JObj(map["content" := JArr([JObj(map["text" := JStr(a)]), JObj(map["text" := JStr(b)])])])])])]))
    ensures AnswerTokens(lib, LinePayloads(["data: " + p])) == [a + b]
  {
    var chunk := lib.loads(p).value;
    OneChunkResponse(lib, p, chunk);
    assert "error"[0] != "choices"[0];
    var parts := [JObj(map["text" := JStr(a)]), JObj(map["text" := JStr(b)])];
    assert parts[1..] == [parts[1]] && parts[1..][1..] == [];
    assert TextParts([parts[1]]) == b + TextParts([]) == b;
    assert TextParts(parts) == a + TextParts([parts[1]]) == a + b;
    assert chunk.Get("error") == JNull;
    assert ExtractStreamContent(chunk) == TextParts(parts);
  }
}
