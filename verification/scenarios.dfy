/**
 Worked scripts: concrete prompts run through the parser and the dispatcher.
 */
module Scenarios {
  import opened Strings
  import opened Optional
  import opened Parser
  import opened Dispatcher

  /** A name that is already trimmed and lower-case is read as itself. */
  lemma NameReadsAsItself(name: string)
    requires name != [] && IsTrimmed(name) && HasNoUpper(name)
    ensures DirectiveName(name) == name
  {
    TrimCharacterization([], name, []);
    assert [] + name + [] == name;
    LowerFixesExactlyLowerCase(name);
  }

  /** A payload after one space is read as itself (absent when empty). */
  lemma PayloadReadsAsItself(payload: string)
    requires IsTrimmed(payload)
    ensures PayloadText(" " + payload) == if payload == [] then None else Some(payload)
  {
    TrimCharacterization(" ", payload, []);
    assert " " + payload + [] == " " + payload;
  }

  /** A line `name: payload` whose parts need no trimming. */
  lemma ReadLine(line: string, k: nat, name: string, payload: string, index: nat)
    requires k < |line| && line[k] == ':' && ':' !in line[..k]
    requires line[..k] == name && name != [] && IsTrimmed(name) && HasNoUpper(name)
    requires line[k + 1..] == " " + payload && IsTrimmed(payload)
    ensures ParseLine(line, index) ==
              DirectiveRecord(name, if payload == [] then None else Some(payload), index)
  {
    ParseLineWithColon(line, k, index);
    NameReadsAsItself(name);
    PayloadReadsAsItself(payload);
  }

  /** A line that needs no trimming, alone in a prompt, is one record. */
  lemma SingleTrimmedLine(line: string)
    requires '\n' !in line && line != [] && IsTrimmed(line)
    ensures ParsePromptLines(line) == [ParseLine(line, 0)]
  {
    ParseSingleLine(line);
    TrimCharacterization([], line, []);
    assert [] + line + [] == line;
  }

  lemma ReadProgressLine()
    ensures ParseLine("progress: doing x", 0) == DirectiveRecord("progress", Some("doing x"), 0)
  {
    ReadLine("progress: doing x", 8, "progress", "doing x", 0);
  }

  /** A line `name:` with nothing after the colon has no payload. */
  lemma ReadBareName(line: string, name: string, index: nat)
    requires line == name + ":"
    requires ':' !in name && name != [] && IsTrimmed(name) && HasNoUpper(name)
    ensures ParseLine(line, index) == DirectiveRecord(name, None, index)
  {
    assert line[..|name|] == name && line[|name| + 1..] == [];
    ParseLineWithColon(line, |name|, index);
    NameReadsAsItself(name);
  }

  lemma ReadWarningLine()
    ensures ParseLine("warning:", 1) == DirectiveRecord("warning", None, 1)
  {
    ReadBareName("warning:", "warning", 1);
  }

  /** A trailing line break after the last line adds no record. */
  lemma TrailingBreakAddsNothing(line: string)
    requires '\n' !in line && line != [] && IsTrimmed(line)
    ensures ParsePromptLines(line + "\n" + "") == [ParseLine(line, 0)]
  {
    WhitespacePromptIsEmpty("");
    ParseConcat(line, "");
    SingleTrimmedLine(line);
    ShiftZero([]);
  }

  /** Two lines with a trailing line break: the empty piece after the last
      break takes no index, so the records are numbered 0 and 1. */
  lemma TwoLinesWithTrailingBreak(first: string, second: string)
    requires '\n' !in first && first != [] && IsTrimmed(first)
    requires '\n' !in second && second != [] && IsTrimmed(second)
    ensures ParsePromptLines(first + "\n" + second + "\n") == [ParseLine(first, 0), ParseLine(second, 1)]
  {
    assert first + "\n" + second + "\n" == first + "\n" + (second + "\n" + "");
    TrailingBreakAddsNothing(second);
    ParseConcat(first, second + "\n" + "");
    SingleTrimmedLine(first);
  }

  /** The script `progress: doing x`, `warning:` with a trailing line break:
      the second line's empty payload is absent. */
  lemma TwoLineScript()
    ensures ParsePromptLines("progress: doing x\nwarning:\n") ==
              [DirectiveRecord("progress", Some("doing x"), 0), DirectiveRecord("warning", None, 1)]
  {
    assert "progress: doing x\nwarning:\n" == "progress: doing x" + "\n" + "warning:" + "\n";
    TwoLinesWithTrailingBreak("progress: doing x", "warning:");
    ReadProgressLine();
    ReadWarningLine();
  }

  /** `warning` with no payload falls back to the fixed text "warning",
      not to anything derived from its index, and leaves the state alone. */
  lemma WarningWithoutPayload(reference: Option<Uri>, s: Session)
    ensures Dispatch(DirectiveRecord("warning", None, 1), reference, s) == Outcome(Warning("warning"), s)
  {
  }

  lemma ReadMarkdownLine()
    ensures ParseLine("markdown: hi", 0) == DirectiveRecord("markdown", Some("hi"), 0)
  {
    ReadLine("markdown: hi", 8, "markdown", "hi", 0);
  }

  lemma MarkdownGetsLineBreak(reference: Option<Uri>, s: Session)
    ensures Dispatch(DirectiveRecord("markdown", Some("hi"), 0), reference, s) == Outcome(Markdown("hi\n"), s)
  {
  }

  /** An unknown directive is not treated as `markdown`: it emits nothing. */
  lemma UnknownIsNoOp(reference: Option<Uri>, s: Session)
    ensures Dispatch(ParseLine("frobnicate: hi", 0), reference, s) == Outcome(NoOp, s)
  {
    ReadFrobnicateLine();
    FrobnicateIsUnknown(reference, s);
  }

  lemma ReadFrobnicateLine()
    ensures ParseLine("frobnicate: hi", 0) == DirectiveRecord("frobnicate", Some("hi"), 0)
  {
    ReadLine("frobnicate: hi", 10, "frobnicate", "hi", 0);
  }

  lemma FrobnicateIsUnknown(reference: Option<Uri>, s: Session)
    ensures Dispatch(DirectiveRecord("frobnicate", Some("hi"), 0), reference, s) == Outcome(NoOp, s)
  {
  }

  /** `markdown` echoes its payload with a line break. */
  lemma MarkdownEchoes(reference: Option<Uri>, s: Session)
    ensures Dispatch(ParseLine("markdown: hi", 0), reference, s) == Outcome(Markdown("hi\n"), s)
  {
    ReadMarkdownLine();
    MarkdownGetsLineBreak(reference, s);
  }

  lemma ProgressNameIsLowered()
    ensures DirectiveName("Progress") == "progress"
  {
    TrimCharacterization([], "Progress", []);
    assert [] + "Progress" + [] == "Progress";
    LowerProgress();
  }

  lemma LowerProgress()
    ensures Lower("Progress") == "progress"
  {
  }

  /** Upper-case spellings select the same arm, because names are lower-cased. */
  lemma NamesAreCaseInsensitive()
    ensures ParseLine("Progress: x", 0).directive == "progress"
  {
    ParseLineWithColon("Progress: x", 8, 0);
    assert "Progress: x"[..8] == "Progress";
    ProgressNameIsLowered();
  }

  /** A line that is only a colon reads as `markdown` with no payload. */
  lemma LoneColon()
    ensures ParseLine(":", 3) == DirectiveRecord("markdown", None, 3)
  {
    ParseLineWithColon(":", 0, 3);
  }

  /** Later colons stay in the payload. */
  lemma LaterColonsKept()
    ensures ParseLine("warning: a:b", 0) == DirectiveRecord("warning", Some("a:b"), 0)
  {
    ReadLine("warning: a:b", 7, "warning", "a:b", 0);
  }
}
