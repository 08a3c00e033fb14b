/**
 The directive dispatcher (`dispatchDirective`) as a pure function: a parsed
 record, the request's file reference and the session state give the one
 stream call the record causes and the next session state. Also the
 reference lookup (`getFileReferenceUri`).
 */
module Dispatcher {
  import opened Strings
  import opened Optional
  import opened Parser

  /** A URI, identified by its text. */
  datatype Uri = Uri(text: string)

  /** The value of a reference attached to a request: a URI, a location inside
      a document (which carries a URI but is not one), or some other value
      such as a string. */
  datatype ReferenceValue = UriValue(uri: Uri) | LocationValue(uri: Uri) | OtherValue(text: string)

  datatype PromptReference = PromptReference(value: ReferenceValue)

  /** A reference qualifies when its value is a URI that the host places
      inside a workspace folder; `inWorkspace` stands for that host query. */
  predicate IsWorkspaceFile(reference: PromptReference, inWorkspace: Uri -> bool) {
    reference.value.UriValue? && inWorkspace(reference.value.uri)
  }

  /** `getFileReferenceUri`: the URI of the first qualifying reference, if any. */
  function FileReferenceUri(references: seq<PromptReference>, inWorkspace: Uri -> bool): (r: Option<Uri>)
    ensures r.None? <==> forall i :: 0 <= i < |references| ==> !IsWorkspaceFile(references[i], inWorkspace)
    ensures r.Some? ==>
              exists i :: 0 <= i < |references| && references[i].value == UriValue(r.value)
                          && inWorkspace(r.value)
                          && forall j :: 0 <= j < i ==> !IsWorkspaceFile(references[j], inWorkspace)
  {
    if references == [] then None
    else if IsWorkspaceFile(references[0], inWorkspace) then Some(references[0].value.uri)
    else
      var r := FileReferenceUri(references[1..], inWorkspace);
      assert r.Some? ==> exists i :: 1 <= i < |references| && references[i].value == UriValue(r.value)
                          && inWorkspace(r.value)
                          && forall j :: 0 <= j < i ==> !IsWorkspaceFile(references[j], inWorkspace) by {
        if r.Some? {
          var i :| 0 <= i < |references[1..]| && references[1..][i].value == UriValue(r.value)
                   && inWorkspace(r.value)
                   && forall j :: 0 <= j < i ==> !IsWorkspaceFile(references[1..][j], inWorkspace);
          assert forall j :: 1 <= j < i + 1 ==> references[j] == references[1..][j - 1];
        }
      }
      r
  }

  /** The one piece of module state: the index of the tool invocation most
      recently begun. */
  datatype Session = Session(currentToolInvocationIndex: nat)

  /** The state the module starts in. */
  const InitialSession: Session := Session(0)

  datatype Position = Position(line: nat, character: nat)

  /** An edit that inserts `newText` at `position`. */
  datatype Edit = Insert(position: Position, newText: string)

  datatype QuestionType = TextQuestion

  datatype Question = Question(id: string, kind: QuestionType, title: string, message: string)

  /** The data a confirmation carries back: the record's directive and index. */
  datatype ConfirmationData = ConfirmationData(directive: string, index: nat)

  /** One call on the response stream (or on the tool facility), or nothing. */
  datatype Effect =
    | Markdown(text: string)
    | TextEdit(target: Uri, edits: seq<Edit>)
    | ToolCall(toolName: string, input: string)
    | BeginToolInvocation(toolCallId: string, toolName: string)
    | UpdateToolInvocation(toolCallId: string, partialInput: string)
    | CodeblockUri(uri: Uri, isEdit: bool)
    | Progress(text: string)
    | ThinkingProgress(id: string, text: string)
    | Warning(text: string)
    | Confirmation(title: string, message: string, data: ConfirmationData, buttons: seq<string>)
    | QuestionCarousel(questions: seq<Question>, continueFlag: bool)
    | NoOp

  /** The arms of the `switch`, `DefaultArm` being `default:`. */
  datatype Arm =
    | MarkdownArm | TextEditArm | ToolCallArm | BeginToolInvocationArm
    | UpdateToolInvocationArm | CodeblockUriArm | ProgressArm | ThinkingProgressArm
    | WarningArm | ConfirmationArm | QuestionCarouselArm | DefaultArm

  /** The `case` label of each arm, spelled as in the switch. */
  function Label(a: Arm): string
    requires a != DefaultArm
  {
    match a
    case MarkdownArm => "markdown"
    case TextEditArm => "textedit"
    case ToolCallArm => "toolcall"
    case BeginToolInvocationArm => "begintoolinvocation"
    case UpdateToolInvocationArm => "updateToolInvocation"
    case CodeblockUriArm => "codeblockuri"
    case ProgressArm => "progress"
    case ThinkingProgressArm => "thinkingprogress"
    case WarningArm => "warning"
    case ConfirmationArm => "confirmation"
    case QuestionCarouselArm => "questioncarousel"
  }

  /** The arm the switch selects for a directive name: the one whose label
      equals the name exactly, or `default:` when no label does. */
  function Classify(name: string): (a: Arm)
    ensures a != DefaultArm ==> Label(a) == name
    ensures a == DefaultArm <==> forall b: Arm :: b != DefaultArm ==> Label(b) != name
  {
    if name == "markdown" then MarkdownArm
    else if name == "textedit" then TextEditArm
    else if name == "toolcall" then ToolCallArm
    else if name == "begintoolinvocation" then BeginToolInvocationArm
    else if name == "updateToolInvocation" then UpdateToolInvocationArm
    else if name == "codeblockuri" then CodeblockUriArm
    else if name == "progress" then ProgressArm
    else if name == "thinkingprogress" then ThinkingProgressArm
    else if name == "warning" then WarningArm
    else if name == "confirmation" then ConfirmationArm
    else if name == "questioncarousel" then QuestionCarouselArm
    else DefaultArm
  }

  /** Every label selects its own arm: no two arms share a label. */
  lemma ClassifyLabel(a: Arm)
    requires a != DefaultArm
    ensures Classify(Label(a)) == a
  {
  }

  /** The label of the update arm holds upper-case letters, so a lower-cased
      name never selects it. */
  lemma UpdateArmNeedsUpperCase(name: string)
    requires HasNoUpper(name)
    ensures Classify(name) != UpdateToolInvocationArm
  {
    var spelled := Label(UpdateToolInvocationArm);
    assert IsUpper(spelled[6]);
  }

  /** The name of the echo tool. */
  const ToolName: string := "cvdtool"

  /** Where `codeblockuri` points when the request has no file reference. */
  const PlaceholderUri: Uri := Uri("file:///tmp/tmp.txt")

  const ConfirmationTitle: string := "Confirmation required"
  const ConfirmationButtons: seq<string> := ["Accept", "Reject"]
  const QuestionMessage: string := "Reply to continue the echo test"

  /** The id of the tool invocation begun at `index`. */
  function ToolCallId(index: nat): string {
    ToolName + "-" + NatToString(index)
  }

  /** The fixed fallback each payload-taking arm uses when the record has no
      payload; arms that take no payload have none. */
  function DefaultPayload(a: Arm): Option<string> {
    match a
    case MarkdownArm => Some("hello")
    case TextEditArm => Some("text edit")
    case ToolCallArm => Some("default input")
    case UpdateToolInvocationArm => Some("updated input")
    case ProgressArm => Some("Working ...")
    case ThinkingProgressArm => Some("Thinking ...")
    case WarningArm => Some("warning")
    case ConfirmationArm => Some("confirmation")
    case QuestionCarouselArm => Some("Question carousel")
    case BeginToolInvocationArm => None
    case CodeblockUriArm => None
    case DefaultArm => None
  }

  /** The payload an arm hands on: the record's own when present, else the
      arm's fallback. The markdown arm tests with `||`, so there an empty
      payload also falls back. */
  function ResolvedPayload(payload: Option<string>, a: Arm): Option<string> {
    match DefaultPayload(a)
    case None => None
    case Some(fallback) =>
      if payload.Some? && (payload.value != [] || a != MarkdownArm) then payload else Some(fallback)
  }

  /** The text an effect carries where the directive's payload goes (the
      markdown arm's added line break is not part of it). */
  function PayloadSlot(e: Effect): Option<string> {
    match e
    case Markdown(t) => if |t| > 0 && t[|t| - 1] == '\n' then Some(t[..|t| - 1]) else None
    case TextEdit(_, edits) => if |edits| == 1 then Some(edits[0].newText) else None
    case ToolCall(_, input) => Some(input)
    case UpdateToolInvocation(_, partialInput) => Some(partialInput)
    case Progress(t) => Some(t)
    case ThinkingProgress(_, t) => Some(t)
    case Warning(t) => Some(t)
    case Confirmation(_, message, _, _) => Some(message)
    case QuestionCarousel(questions, _) => if |questions| == 1 then Some(questions[0].title) else None
    case BeginToolInvocation(_, _) => None
    case CodeblockUri(_, _) => None
    case NoOp => None
  }

  /** The arm that emits a given kind of effect. */
  function EffectArm(e: Effect): Arm {
    match e
    case Markdown(_) => MarkdownArm
    case TextEdit(_, _) => TextEditArm
    case ToolCall(_, _) => ToolCallArm
    case BeginToolInvocation(_, _) => BeginToolInvocationArm
    case UpdateToolInvocation(_, _) => UpdateToolInvocationArm
    case CodeblockUri(_, _) => CodeblockUriArm
    case Progress(_) => ProgressArm
    case ThinkingProgress(_, _) => ThinkingProgressArm
    case Warning(_) => WarningArm
    case Confirmation(_, _, _, _) => ConfirmationArm
    case QuestionCarousel(_, _) => QuestionCarouselArm
    case NoOp => DefaultArm
  }

  /** The identifier an effect carries, if its kind has one. */
  function IdSlot(e: Effect): Option<string> {
    match e
    case BeginToolInvocation(id, _) => Some(id)
    case UpdateToolInvocation(id, _) => Some(id)
    case ThinkingProgress(id, _) => Some(id)
    case QuestionCarousel(questions, _) => if |questions| == 1 then Some(questions[0].id) else None
    case _ => None
  }

  /** The identifier each arm derives: from the record's index, except the
      update arm, which targets the session's current invocation. */
  function ExpectedId(a: Arm, index: nat, s: Session): Option<string> {
    match a
    case BeginToolInvocationArm => Some(ToolCallId(index))
    case UpdateToolInvocationArm => Some(ToolCallId(s.currentToolInvocationIndex))
    case ThinkingProgressArm => Some("thinking-" + NatToString(index))
    case QuestionCarouselArm => Some("question-" + NatToString(index))
    case _ => None
  }

  /** What one dispatch produces: the stream call and the next session state. */
  datatype Outcome = Outcome(effect: Effect, session: Session)

  /** `dispatchDirective`: the stream call selected by the record's directive
      name, with the record's payload or the arm's fallback, and the session
      state after it. */
  function Dispatch(record: DirectiveRecord, reference: Option<Uri>, s: Session): (r: Outcome)
    ensures var arm := Classify(record.directive);
            r.effect == NoOp <==> arm == DefaultArm || (arm == TextEditArm && reference.None?)
    ensures r.effect != NoOp ==> EffectArm(r.effect) == Classify(record.directive)
    ensures r.session == if Classify(record.directive) == BeginToolInvocationArm then Session(record.index) else s
  {
    var payload := record.payload;
    match Classify(record.directive)
    case MarkdownArm =>
      var md := if payload.Some? && payload.value != [] then payload.value else "hello";
      Outcome(Markdown(md + "\n"), s)
    case TextEditArm =>
      if reference.Some? then
        Outcome(TextEdit(reference.value, [Insert(Position(0, 0), payload.GetOr("text edit"))]), s)
      else
        Outcome(NoOp, s)
    case ToolCallArm =>
      Outcome(ToolCall(ToolName, payload.GetOr("default input")), s)
    case BeginToolInvocationArm =>
      Outcome(BeginToolInvocation(ToolCallId(record.index), ToolName), Session(record.index))
    case UpdateToolInvocationArm =>
      Outcome(UpdateToolInvocation(ToolCallId(s.currentToolInvocationIndex), payload.GetOr("updated input")), s)
    case CodeblockUriArm =>
      Outcome(CodeblockUri(reference.GetOr(PlaceholderUri), false), s)
    case ProgressArm =>
      Outcome(Progress(payload.GetOr("Working ...")), s)
    case ThinkingProgressArm =>
      Outcome(ThinkingProgress("thinking-" + NatToString(record.index), payload.GetOr("Thinking ...")), s)
    case WarningArm =>
      Outcome(Warning(payload.GetOr("warning")), s)
    case ConfirmationArm =>
      Outcome(Confirmation(ConfirmationTitle, payload.GetOr("confirmation"),
                           ConfirmationData(record.directive, record.index), ConfirmationButtons), s)
    case QuestionCarouselArm =>
      Outcome(QuestionCarousel([Question("question-" + NatToString(record.index), TextQuestion,
                                         payload.GetOr("Question carousel"), QuestionMessage)], true), s)
    case DefaultArm =>
      Outcome(NoOp, s)
  }
}

module DispatchProperties {
  import opened Strings
  import opened Optional
  import opened Parser
  import opened Dispatcher

  /** Every arm that takes a payload hands on the resolved one: the record's
      own when present, the arm's fixed fallback otherwise. */
  lemma DispatchPayload(record: DirectiveRecord, reference: Option<Uri>, s: Session)
    ensures var e := Dispatch(record, reference, s).effect;
            e != NoOp ==> PayloadSlot(e) == ResolvedPayload(record.payload, Classify(record.directive))
  {
  }

  /** Identifiers come from the record's index, except that the update arm
      targets the session's current invocation. */
  lemma DispatchIds(record: DirectiveRecord, reference: Option<Uri>, s: Session)
    ensures var e := Dispatch(record, reference, s).effect;
            e != NoOp ==> IdSlot(e) == ExpectedId(Classify(record.directive), record.index, s)
  {
  }

  /** The arguments no record can change: the tool name, the confirmation's
      title, data and buttons, and the question's kind, message and flag. */
  lemma DispatchFixedArguments(record: DirectiveRecord, reference: Option<Uri>, s: Session)
    ensures var e := Dispatch(record, reference, s).effect;
            && (e.ToolCall? ==> e.toolName == ToolName)
            && (e.BeginToolInvocation? ==> e.toolName == ToolName)
            && (e.Confirmation? ==> e.title == ConfirmationTitle
                                    && e.data == ConfirmationData(record.directive, record.index)
                                    && e.buttons == ConfirmationButtons)
            && (e.QuestionCarousel? ==> e.continueFlag && |e.questions| == 1
                                        && e.questions[0].kind == TextQuestion
                                        && e.questions[0].message == QuestionMessage)
  {
  }

  /** A payload-taking arm hands a present payload on verbatim. */
  lemma PresentPayloadPassesThrough(record: DirectiveRecord, reference: Option<Uri>, s: Session)
    requires WellFormed(record) && record.payload.Some?
    requires DefaultPayload(Classify(record.directive)).Some?
    ensures var e := Dispatch(record, reference, s).effect;
            e != NoOp ==> PayloadSlot(e) == record.payload
  {
    DispatchPayload(record, reference, s);
  }

  /** Without a payload an arm falls back to its fixed constant, which does not
      depend on the record's index. */
  lemma AbsentPayloadFallsBack(record: DirectiveRecord, reference: Option<Uri>, s: Session, other: nat)
    requires record.payload.None?
    ensures var e := Dispatch(record, reference, s).effect;
            e != NoOp ==> PayloadSlot(e) == DefaultPayload(Classify(record.directive))
    ensures PayloadSlot(Dispatch(record, reference, s).effect)
            == PayloadSlot(Dispatch(record.(index := other), reference, s).effect)
  {
    DispatchPayload(record, reference, s);
    DispatchPayload(record.(index := other), reference, s);
  }

  /** Only `begintoolinvocation` moves the session state, and it moves it to
      its own index; every other record leaves the state as it was. */
  lemma OnlyBeginMovesSession(record: DirectiveRecord, reference: Option<Uri>, s: Session)
    ensures Dispatch(record, reference, s).session != s ==>
              Classify(record.directive) == BeginToolInvocationArm
              && Dispatch(record, reference, s).session.currentToolInvocationIndex == record.index
  {
  }

  /** A parsed record never reaches the update arm, so what it emits does not
      depend on the session state. */
  lemma {:induction false} ParsedEffectIgnoresSession(record: DirectiveRecord, reference: Option<Uri>, s1: Session, s2: Session)
    requires WellFormed(record)
    ensures Classify(record.directive) != UpdateToolInvocationArm
    ensures !Dispatch(record, reference, s1).effect.UpdateToolInvocation?
    ensures Dispatch(record, reference, s1).effect == Dispatch(record, reference, s2).effect
  {
    UpdateArmNeedsUpperCase(record.directive);
  }

  /** An unrecognised name, and the lower-case spelling of the update
      directive in particular, emits nothing and keeps the session state. */
  lemma UnrecognisedIsNoOp(record: DirectiveRecord, reference: Option<Uri>, s: Session)
    requires WellFormed(record)
    requires Classify(record.directive) == DefaultArm || record.directive == "updatetoolinvocation"
    ensures Dispatch(record, reference, s) == Outcome(NoOp, s)
  {
    UpdateArmNeedsUpperCase(record.directive);
  }

  /** Records of the same arm at different indices get different identifiers
      (tool invocation, thinking and question ids). */
  lemma {:induction false} IdsSeparateIndices(r1: DirectiveRecord, r2: DirectiveRecord, reference: Option<Uri>, s: Session)
    requires Classify(r1.directive) == Classify(r2.directive)
    requires Classify(r1.directive) in {BeginToolInvocationArm, ThinkingProgressArm, QuestionCarouselArm}
    requires r1.index != r2.index
    ensures IdSlot(Dispatch(r1, reference, s).effect) != IdSlot(Dispatch(r2, reference, s).effect)
  {
    var prefix := match Classify(r1.directive)
      case BeginToolInvocationArm => ToolName + "-"
      case ThinkingProgressArm => "thinking-"
      case _ => "question-";
    DispatchIds(r1, reference, s);
    DispatchIds(r2, reference, s);
    if IdSlot(Dispatch(r1, reference, s).effect) == IdSlot(Dispatch(r2, reference, s).effect) {
      PrefixedNumeralInjective(prefix, r1.index, r2.index);
    }
  }

  /** A begun tool invocation is named after its record's index. */
  lemma BeginIdFromIndex(record: DirectiveRecord, reference: Option<Uri>, s: Session)
    requires Dispatch(record, reference, s).effect.BeginToolInvocation?
    ensures Dispatch(record, reference, s).effect.toolCallId == ToolCallId(record.index)
  {
    DispatchIds(record, reference, s);
  }

  /** Different indices give different tool-call ids. */
  lemma ToolCallIdInjective(a: nat, b: nat)
    requires ToolCallId(a) == ToolCallId(b)
    ensures a == b
  {
    PrefixedNumeralInjective(ToolName + "-", a, b);
  }

  /** Without a file reference `textedit` does nothing and `codeblockuri`
      points at the placeholder; with one, `textedit` inserts at the start of
      that file. */
  lemma ReferenceHandling(record: DirectiveRecord, reference: Option<Uri>, s: Session)
    ensures Classify(record.directive) == TextEditArm ==>
              (reference.None? <==> Dispatch(record, reference, s).effect == NoOp)
    ensures Classify(record.directive) == TextEditArm && reference.Some? ==>
              Dispatch(record, reference, s).effect ==
                TextEdit(reference.value, [Insert(Position(0, 0), record.payload.GetOr("text edit"))])
    ensures Classify(record.directive) == CodeblockUriArm ==>
              Dispatch(record, reference, s).effect == CodeblockUri(reference.GetOr(PlaceholderUri), false)
  {
  }
}
