/** The draft workflow with human review, and the summary workflow. A thread is
    idle, waiting for a review of its draft, or done. */
module Hitl {
  import opened Text
  import opened Json
  import opened Gateway
  import opened Messages
  import opened Chat

  datatype ThreadState = Idle | Waiting(draft: string) | Done(final: string)

  datatype Response = ToolCalls(draft: string) | Final(content: Option<string>)

  // -------------------------------------------------------------------- nodes

  /** `" ".join(part for part in parts if part)`. */
  function Question(parts: seq<string>): string {
    Join(" ", NonBlank(parts))
  }

  function AskTokens(model: Model, question: string): seq<string> {
    model([ChatMessage("user", question, None, None)])
  }

  function DraftTokens(prefix: string, model: Model, request: seq<ReqMessage>): seq<string> {
    AskTokens(model, Question([prefix, LastInput(request)]))
  }

  method GenerateDraft(prefix: string, model: Model, request: seq<ReqMessage>) returns (draft: string)
    ensures draft == Flatten(DraftTokens(prefix, model, request))
  {
    ExtractorsAgree(request);
    var question := LastTextFromInputMessages(JArr(Map(Dump, request)));
    draft := JoinTokens(AskTokens(model, Question([prefix, question])));
  }

  function SummaryTokens(prefix: string, suffix: string, model: Model, request: seq<ReqMessage>): seq<string> {
    AskTokens(model, Question([prefix, LastInput(request), suffix]))
  }

  method Summarize(prefix: string, suffix: string, model: Model, request: seq<ReqMessage>) returns (summary: string)
    ensures summary == Flatten(SummaryTokens(prefix, suffix, model, request))
  {
    ExtractorsAgree(request);
    var question := LastTextFromInputMessages(JArr(Map(Dump, request)));
    summary := JoinTokens(AskTokens(model, Question([prefix, question, suffix])));
  }

  /** `human_review` once resumed: the reviewer's text, or the draft. */
  function ReviewedText(reviewed: string, draft: string): string {
    if reviewed != "" then reviewed else draft
  }

  /** `_result_text`: the first non-empty of the result's text fields, in the
      order final, draft, summary, answer. */
  function ResultText(fields: seq<string>): Option<string> {
    if fields == [] then None
    else if fields[0] != "" then Some(fields[0])
    else ResultText(fields[1..])
  }

  /** What `run_once` returns for a summary. */
  function SummaryTurn(prefix: string, suffix: string, model: Model, request: seq<ReqMessage>): Option<string> {
    ResultText([Flatten(SummaryTokens(prefix, suffix, model, request))])
  }

  lemma ResultOfOne(text: string)
    ensures ResultText([text]) == NonEmpty(text)
  {
    assert [text][1..] == [];
  }

  // ------------------------------------------------------------------- resume

  /** A message `_resume_payload` accepts: the role is compared as it is. */
  predicate IsReview(m: ReqMessage) {
    m.role == "tool" && m.content.Text?
  }

  function ReviewIn(request: seq<ReqMessage>): Option<string> {
    if request == [] then None
    else if IsReview(request[|request| - 1]) then Some(request[|request| - 1].content.text)
    else ReviewIn(request[..|request| - 1])
  }

  method ResumePayload(request: seq<ReqMessage>) returns (final: Option<string>)
    ensures final == ReviewIn(request)
    ensures final.None? ==> forall i :: 0 <= i < |request| ==> !(request[i].role == "tool" && request[i].content.Text?)
    ensures final.Some? ==> exists i :: 0 <= i < |request| && request[i].role == "tool"
                              && request[i].content == Content.Text(final.value)
                              && forall j :: i < j < |request| ==>
                                   !(request[j].role == "tool" && request[j].content.Text?)
  {
    var i := |request|;
    assert request[..i] == request;
    while i > 0
      invariant 0 <= i <= |request|
      invariant ReviewIn(request) == ReviewIn(request[..i])
      invariant forall j :: i <= j < |request| ==> !IsReview(request[j])
    {
      i := i - 1;
      assert request[..i + 1][..i] == request[..i];
      if request[i].role != "tool" { continue; }
      if request[i].content.Text? { return Some(request[i].content.text); }
    }
    return None;
  }

  // --------------------------------------------------------------- the thread

  datatype HitlRequest = HitlRequest(messages: seq<ReqMessage>, prefix: string, model: Model)

  /** Resuming a thread that does not wait is up to the graph library. */
  predicate Accepts(state: ThreadState, r: HitlRequest) {
    ReviewIn(r.messages).Some? ==> state.Waiting?
  }

  function HitlTurn(state: ThreadState, r: HitlRequest): (ThreadState, Response)
    requires Accepts(state, r)
  {
    match ReviewIn(r.messages)
    case None =>
      var draft := Flatten(DraftTokens(r.prefix, r.model, r.messages));
      (Waiting(draft), ToolCalls(draft))
    case Some(reviewed) =>
      var final := ReviewedText(reviewed, state.draft);
      (Done(final), Final(ResultText([final, state.draft])))
  }

  /** One thread of the draft workflow. */
  class Thread {
    var state: ThreadState

    constructor ()
      ensures state == Idle
    {
      state := Idle;
    }

    /** `run_once` for the draft workflow. A request without a review restarts a
        waiting thread. */
    method RunOnce(r: HitlRequest) returns (response: Response)
      requires Accepts(state, r)
      modifies this
      ensures (state, response) == HitlTurn(old(state), r)
    {
      var resume := ResumePayload(r.messages);
      if resume.Some? {
        var draft := state.draft;
        var final := if resume.value != "" then resume.value else draft;
        state := Done(final);
        return Final(ResultText([final, draft]));
      }
      var draft := GenerateDraft(r.prefix, r.model, r.messages);
      state := Waiting(draft);
      response := ToolCalls(draft);
    }
  }

  // -------------------------------------------------------------------- runs

  predicate LegalRun(requests: seq<HitlRequest>)
    decreases |requests|, 0
  {
    requests == [] ||
    var n := |requests| - 1;
    LegalRun(requests[..n]) && Accepts(StateAfter(requests[..n]), requests[n])
  }

  function StateAfter(requests: seq<HitlRequest>): ThreadState
    requires LegalRun(requests)
    decreases |requests|, 1
  {
    if requests == [] then Idle
    else var n := |requests| - 1; HitlTurn(StateAfter(requests[..n]), requests[n]).0
  }

  /** The response to the last of the requests. */
  function LastResponse(requests: seq<HitlRequest>): Response
    requires LegalRun(requests) && requests != []
  {
    var n := |requests| - 1;
    HitlTurn(StateAfter(requests[..n]), requests[n]).1
  }

  lemma RunSnoc(requests: seq<HitlRequest>, r: HitlRequest)
    ensures LegalRun(requests + [r]) <==> LegalRun(requests) && Accepts(StateAfter(requests), r)
    ensures LegalRun(requests + [r]) ==>
      (StateAfter(requests + [r]), LastResponse(requests + [r])) == HitlTurn(StateAfter(requests), r)
  {
    assert (requests + [r])[..|requests|] == requests;
  }

  /** Two conversations with a thread that have come to the same point. */
  predicate SamePoint(a: seq<HitlRequest>, b: seq<HitlRequest>) {
    && (LegalRun(a) <==> LegalRun(b))
    && (LegalRun(a) && a != [] && b != [] ==> StateAfter(a) == StateAfter(b) && LastResponse(a) == LastResponse(b))
  }

  lemma SamePointSnoc(a: seq<HitlRequest>, b: seq<HitlRequest>, r: HitlRequest)
    requires SamePoint(a, b) && a != [] && b != []
    ensures SamePoint(a + [r], b + [r])
  {
    RunSnoc(a, r);
    RunSnoc(b, r);
  }

  /** A request without a review starts over: what the thread was and did before
      makes no difference to anything that follows it. */
  lemma {:induction false} RestartForgets(before: seq<HitlRequest>, r: HitlRequest, after: seq<HitlRequest>)
    requires LegalRun(before) && ReviewIn(r.messages).None?
    ensures SamePoint(before + [r] + after, [r] + after)
    decreases |after|
  {
    if after == [] {
      RunSnoc(before, r);
      RunSnoc([], r);
      assert before + [r] + after == before + [r] && [r] + after == [] + [r];
    } else {
      var n := |after| - 1;
      RestartForgets(before, r, after[..n]);
      SamePointSnoc(before + [r] + after[..n], [r] + after[..n], after[n]);
      assert after == after[..n] + [after[n]];
      Associate(before + [r], after[..n], [after[n]]);
      Associate([r], after[..n], [after[n]]);
    }
  }

  /** A thread waits exactly when its last response asked for a review, of the
      draft that request produced. */
  lemma WaitingMeansAsked(requests: seq<HitlRequest>)
    requires LegalRun(requests) && requests != []
    ensures StateAfter(requests).Waiting? <==> LastResponse(requests).ToolCalls?
    ensures LastResponse(requests).ToolCalls? ==>
      var r := requests[|requests| - 1];
      && LastResponse(requests).draft == Flatten(DraftTokens(r.prefix, r.model, r.messages))
      && StateAfter(requests) == Waiting(LastResponse(requests).draft)
  {
  }

  lemma ReviewResult(reviewed: string, draft: string)
    ensures var final := ReviewedText(reviewed, draft); ResultText([final, draft]) == NonEmpty(final)
  {
    var final := ReviewedText(reviewed, draft);
    assert [final, draft][1..] == [draft] && [draft][1..] == [];
    assert ResultText([draft]) == NonEmpty(draft);
    assert ResultText([final, draft]) == if final != "" then Some(final) else ResultText([draft]);
  }

  /** Over every run, at its last request: the thread is left waiting exactly
      when the response asks for a review, of the draft just produced; a final
      answer directly follows such a response, and is the review text or, when
      that is empty, the draft that was asked about. */
  lemma ReviewTraceability(before: seq<HitlRequest>, r: HitlRequest)
    requires LegalRun(before) && LegalRun(before + [r])
    ensures var response, draft := LastResponse(before + [r]), Flatten(DraftTokens(r.prefix, r.model, r.messages));
            && (StateAfter(before + [r]).Waiting? <==> response.ToolCalls?)
            && (response.ToolCalls? ==> response.draft == draft && StateAfter(before + [r]) == Waiting(draft))
            && (response.Final? ==>
                  && before != [] && LastResponse(before).ToolCalls? && ReviewIn(r.messages).Some?
                  && var text := ReviewedText(ReviewIn(r.messages).value, LastResponse(before).draft);
                     StateAfter(before + [r]) == Done(text) && response.content == NonEmpty(text))
  {
    assert (before + [r])[..|before|] == before;
    if before != [] {
      WaitingMeansAsked(before);
    }
    if ReviewIn(r.messages).Some? {
      ReviewResult(ReviewIn(r.messages).value, StateAfter(before).draft);
    }
  }

  /** The review is the text of the last tool message that has one: `d` is the draft
      the thread asked about, `t` that text. */
  lemma {:induction false} ReviewIsLast(pre: seq<ReqMessage>, m: ReqMessage, post: seq<ReqMessage>)
    requires m.role == "tool" && m.content.Text?
    requires forall i :: 0 <= i < |post| ==> !(post[i].role == "tool" && post[i].content.Text?)
    ensures ReviewIn(pre + [m] + post) == Some(m.content.text)
    decreases |post|
  {
    var all := pre + [m] + post;
    if post == [] {
      assert all == pre + [m] && all[|all| - 1] == m;
    } else {
      var n := |post| - 1;
      ReviewIsLast(pre, m, post[..n]);
      assert all[|all| - 1] == post[n] && all[..|all| - 1] == pre + [m] + post[..n];
    }
  }

  /** In every run, a review with text `t` finishes the thread with `t`, and an
      empty one with the draft `d` that the thread had asked about; this is what is
      returned, or nothing when both are empty. */
  lemma ReviewOutcome(before: seq<HitlRequest>, r: HitlRequest,
                      pre: seq<ReqMessage>, m: ReqMessage, post: seq<ReqMessage>)
    requires LegalRun(before) && LegalRun(before + [r]) && r.messages == pre + [m] + post
    requires m.role == "tool" && m.content.Text?
    requires forall i :: 0 <= i < |post| ==> !(post[i].role == "tool" && post[i].content.Text?)
    ensures before != [] && LastResponse(before).ToolCalls?
    ensures var t, d := m.content.text, LastResponse(before).draft;
            && (t != "" ==> StateAfter(before + [r]) == Done(t) && LastResponse(before + [r]) == Final(Some(t)))
            && (t == "" ==>
                  && StateAfter(before + [r]) == Done(d)
                  && LastResponse(before + [r]) == Final(if d == "" then None else Some(d)))
  {
    ReviewIsLast(pre, m, post);
    ReviewTraceability(before, r);
  }
}
