/**
 The request handler (`getHandler`): emit the heading, then dispatch every
 parsed record in order, threading the session state from one record to the
 next. The result is the trace of stream calls and the final state.
 */
module Handler {
  import opened Optional
  import opened Parser
  import opened Dispatcher
  import opened DispatchProperties

  /** The heading every response starts with. */
  const Heading: string := "**Echo Chat Participant**\n\n"

  /** What the handler reads from a chat request: the prompt, which may be
      missing, and the attached references. */
  datatype Request = Request(prompt: Option<string>, references: seq<PromptReference>)

  /** `request.prompt ?? ''`. */
  function PromptText(request: Request): (text: string)
    ensures request.prompt.Some? ==> text == request.prompt.value
    ensures request.prompt.None? ==> text == []
  {
    request.prompt.GetOr("")
  }

  /** The stream calls of one request and the session state after it. */
  datatype Trace = Trace(effects: seq<Effect>, session: Session)

  /** The record begins a tool invocation (the switch compares names exactly). */
  predicate IsBegin(record: DirectiveRecord) {
    record.directive == "begintoolinvocation"
  }

  lemma IsBeginClassify(record: DirectiveRecord)
    ensures IsBegin(record) <==> Classify(record.directive) == BeginToolInvocationArm
  {
  }

  /** The session state after `records` have run from `s`, read off the
      records alone: the index of the last `begintoolinvocation`, or `s` when
      there is none. */
  function LatestBegin(records: seq<DirectiveRecord>, s: Session): Session {
    if records == [] then s
    else
      var last := records[|records| - 1];
      if IsBegin(last) then Session(last.index)
      else LatestBegin(records[..|records| - 1], s)
  }

  /** `LatestBegin` is the index of the last `begintoolinvocation` record: no
      such record leaves `s`, otherwise some such record sets the state and
      none comes after it. */
  lemma {:induction false} LatestBeginIsLastBegin(records: seq<DirectiveRecord>, s: Session)
    ensures (forall k :: 0 <= k < |records| ==> !IsBegin(records[k])) ==> LatestBegin(records, s) == s
    ensures (exists k :: 0 <= k < |records| && IsBegin(records[k])) ==>
              exists k :: 0 <= k < |records| && IsBegin(records[k])
                          && LatestBegin(records, s) == Session(records[k].index)
                          && forall j :: k < j < |records| ==> !IsBegin(records[j])
  {
    if records != [] {
      var n := |records| - 1;
      var front := records[..n];
      LatestBeginIsLastBegin(front, s);
      assert forall k :: 0 <= k < n ==> front[k] == records[k];
      if !IsBegin(records[n]) && exists k :: 0 <= k < |records| && IsBegin(records[k]) {
        var k :| 0 <= k < |records| && IsBegin(records[k]);
        assert IsBegin(front[k]);
      }
    }
  }

  /** Running one record and then the rest is running them all. */
  lemma {:induction false} LatestBeginStep(record: DirectiveRecord, rest: seq<DirectiveRecord>, reference: Option<Uri>, s: Session)
    ensures LatestBegin([record] + rest, s) == LatestBegin(rest, Dispatch(record, reference, s).session)
    decreases |rest|
  {
    var all := [record] + rest;
    IsBeginClassify(record);
    if rest != [] {
      assert all[|all| - 1] == rest[|rest| - 1];
      assert all[..|all| - 1] == [record] + rest[..|rest| - 1];
      LatestBeginStep(record, rest[..|rest| - 1], reference, s);
    } else {
      assert all[..|all| - 1] == [];
    }
  }

  /** The `for` loop: dispatches the records in order, each seeing the state
      the previous ones left. */
  function DispatchAll(records: seq<DirectiveRecord>, reference: Option<Uri>, s: Session): (t: Trace)
    ensures |t.effects| == |records|
    ensures t.session == LatestBegin(records, s)
  {
    if records == [] then Trace([], s)
    else
      var first := Dispatch(records[0], reference, s);
      var rest := DispatchAll(records[1..], reference, first.session);
      LatestBeginStep(records[0], records[1..], reference, s);
      assert records == [records[0]] + records[1..];
      Trace([first.effect] + rest.effects, rest.session)
  }

  /** The loop after its first record is the loop over the rest, started in
      the state the first record left. */
  lemma DispatchAllTail(records: seq<DirectiveRecord>, reference: Option<Uri>, s: Session, i: nat)
    requires 0 < i < |records|
    ensures DispatchAll(records, reference, s).effects[i]
            == DispatchAll(records[1..], reference, Dispatch(records[0], reference, s).session).effects[i - 1]
  {
  }

  /** The state before the `i`-th record, read from the second record on. */
  lemma LatestBeginAfterFirst(records: seq<DirectiveRecord>, reference: Option<Uri>, s: Session, i: nat)
    requires 0 < i < |records|
    ensures LatestBegin(records[1..][..i - 1], Dispatch(records[0], reference, s).session)
            == LatestBegin(records[..i], s)
  {
    assert records[..i] == [records[0]] + records[1..][..i - 1];
    LatestBeginStep(records[0], records[1..][..i - 1], reference, s);
  }

  /** The `i`-th effect of the loop is the `i`-th record's dispatch in the
      state the records before it left. */
  lemma {:induction false} DispatchAllEffect(records: seq<DirectiveRecord>, reference: Option<Uri>, s: Session, i: nat)
    requires i < |records|
    ensures DispatchAll(records, reference, s).effects[i]
            == Dispatch(records[i], reference, LatestBegin(records[..i], s)).effect
  {
    if i == 0 {
      assert records[..0] == [];
    } else {
      var first := Dispatch(records[0], reference, s);
      DispatchAllEffect(records[1..], reference, first.session, i - 1);
      DispatchAllTail(records, reference, s, i);
      LatestBeginAfterFirst(records, reference, s, i);
      assert records[1..][i - 1] == records[i];
    }
  }

  /** For parsed records the loop's effects are the records' own dispatches:
      the state threaded between them never changes what they emit. */
  lemma ParsedRunIgnoresSession(records: seq<DirectiveRecord>, reference: Option<Uri>, s: Session)
    requires forall i :: 0 <= i < |records| ==> WellFormed(records[i])
    ensures forall i :: 0 <= i < |records| ==>
              DispatchAll(records, reference, s).effects[i] == Dispatch(records[i], reference, s).effect
  {
    forall i | 0 <= i < |records|
      ensures DispatchAll(records, reference, s).effects[i] == Dispatch(records[i], reference, s).effect
    {
      DispatchAllEffect(records, reference, s, i);
      ParsedEffectIgnoresSession(records[i], reference, LatestBegin(records[..i], s), s);
    }
  }

  /** The handler for one request: the heading, then one effect per parsed
      record in index order; the state ends at the last
      `begintoolinvocation`. */
  function HandleRequest(request: Request, inWorkspace: Uri -> bool, s: Session): (t: Trace)
    ensures var records := ParsePromptLines(PromptText(request));
            && |t.effects| == |records| + 1
            && t.effects[0] == Markdown(Heading)
            && t.session == LatestBegin(records, s)
  {
    var records := ParsePromptLines(PromptText(request));
    var run := DispatchAll(records, FileReferenceUri(request.references, inWorkspace), s);
    Trace([Markdown(Heading)] + run.effects, run.session)
  }

  /** After the heading, the effect of the `i`-th record is its own dispatch
      against the request's file reference and the state the request began
      with: the state threaded between records never changes what they emit. */
  lemma HandleRequestEffect(request: Request, inWorkspace: Uri -> bool, s: Session, i: nat)
    requires i < |ParsePromptLines(PromptText(request))|
    ensures var records := ParsePromptLines(PromptText(request));
            HandleRequest(request, inWorkspace, s).effects[i + 1]
            == Dispatch(records[i], FileReferenceUri(request.references, inWorkspace), s).effect
  {
    var records := ParsePromptLines(PromptText(request));
    var reference := FileReferenceUri(request.references, inWorkspace);
    DispatchAllEffect(records, reference, s, i);
    ParsedEffectIgnoresSession(records[i], reference, LatestBegin(records[..i], s), s);
  }
}

module HandlerProperties {
  import opened Parser
  import opened Dispatcher
  import opened DispatchProperties
  import opened Handler

  /** The module state starts at 0, and after the first request it is still
      0 unless some record began a tool invocation, in which case it is the
      index of the last such record. */
  lemma FirstRequestState(request: Request, inWorkspace: Uri -> bool)
    ensures var records := ParsePromptLines(PromptText(request));
            var final := HandleRequest(request, inWorkspace, InitialSession).session;
            final.currentToolInvocationIndex == 0
            || exists k :: 0 <= k < |records| && IsBegin(records[k]) && final == Session(k)
  {
    var records := ParsePromptLines(PromptText(request));
    LatestBeginIsLastBegin(records, InitialSession);
  }

  /** The effect of any one record is never a tool-invocation update. */
  lemma NoUpdateAt(request: Request, inWorkspace: Uri -> bool, s: Session, k: nat)
    requires k < |ParsePromptLines(PromptText(request))|
    ensures !HandleRequest(request, inWorkspace, s).effects[k + 1].UpdateToolInvocation?
  {
    var record := ParsePromptLines(PromptText(request))[k];
    var reference := FileReferenceUri(request.references, inWorkspace);
    HandleRequestEffect(request, inWorkspace, s, k);
    ParsedEffectIgnoresSession(record, reference, s, s);
  }

  /** No request ever produces a tool-invocation update: the only arm that
      would emit one has a label no parsed directive can match. */
  lemma NoUpdateInAnyTrace(request: Request, inWorkspace: Uri -> bool, s: Session)
    ensures var t := HandleRequest(request, inWorkspace, s);
            forall k :: 0 <= k < |t.effects| ==> !t.effects[k].UpdateToolInvocation?
  {
    var t := HandleRequest(request, inWorkspace, s);
    forall k | 0 <= k < |t.effects|
      ensures !t.effects[k].UpdateToolInvocation?
    {
      if k > 0 {
        NoUpdateAt(request, inWorkspace, s, k - 1);
      }
    }
  }

  /** A tool invocation begun in a trace is named after the position of its
      record in the prompt. */
  lemma BeginIdInTrace(request: Request, inWorkspace: Uri -> bool, s: Session, k: nat)
    requires k < |ParsePromptLines(PromptText(request))|
    requires HandleRequest(request, inWorkspace, s).effects[k + 1].BeginToolInvocation?
    ensures HandleRequest(request, inWorkspace, s).effects[k + 1].toolCallId == ToolCallId(k)
  {
    var record := ParsePromptLines(PromptText(request))[k];
    var reference := FileReferenceUri(request.references, inWorkspace);
    assert record.index == k;
    HandleRequestEffect(request, inWorkspace, s, k);
    BeginIdFromIndex(record, reference, s);
  }

  /** Within one request every tool invocation is begun under its own id:
      the effects of two different records never share a tool-call id. */
  lemma BeginIdsAreDistinct(request: Request, inWorkspace: Uri -> bool, s: Session, k1: nat, k2: nat)
    requires k1 < k2 < |ParsePromptLines(PromptText(request))|
    requires HandleRequest(request, inWorkspace, s).effects[k1 + 1].BeginToolInvocation?
    requires HandleRequest(request, inWorkspace, s).effects[k2 + 1].BeginToolInvocation?
    ensures HandleRequest(request, inWorkspace, s).effects[k1 + 1].toolCallId
            != HandleRequest(request, inWorkspace, s).effects[k2 + 1].toolCallId
  {
    BeginIdInTrace(request, inWorkspace, s, k1);
    BeginIdInTrace(request, inWorkspace, s, k2);
    if ToolCallId(k1) == ToolCallId(k2) {
      ToolCallIdInjective(k1, k2);
    }
  }
}
