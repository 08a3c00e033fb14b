# Echo chat participant: directive interpreter

A Dafny model of the directive interpreter in `src/echo.ts`. The echo chat
participant reads a chat prompt line by line. It turns each non-blank line
`name: payload` into a directive record and drives one response-stream call
per record. The model has four parts.

- **The parser** (`parsePromptLines`, module `Parser`). It splits the prompt at
  `\r?\n`, trims the lines and drops blank ones. Each line is split at its
  colons; the name is the trimmed, lower-cased text before the first colon,
  or `markdown` when that is empty. The payload is everything after the first
  colon, re-joined and trimmed, and absent when empty. Records are numbered
  from 0. The JavaScript string operations it relies on (`trim`, ASCII
  `toLowerCase`, `split`, `join`, and `${n}` rendering) are in module `Strings`.
- **The dispatcher** (`dispatchDirective`, module `Dispatcher`). A pure
  function from a record, the request's file reference and the session state
  to one `Effect` and the next state. Each response-stream call (and
  `vscode.lm.invokeTool`) is one constructor of `Effect`, and `NoOp` stands
  for the arms that call nothing. The only state is
  `currentToolInvocationIndex`, written `Session`. `getFileReferenceUri` is a
  first-match search over the references. The host's "is this URI inside a
  workspace folder" query is a function parameter `inWorkspace`.
- **The handler** (`getHandler`, module `Handler`). The fixed heading, then
  the records dispatched in order as a fold that threads the state. The
  result is a `Trace`: the effect sequence and the final state.
- **Worked scripts** (module `Scenarios`). Concrete prompts run through the
  parser and the dispatcher.

Some behaviours of the code worth stating plainly:

- An absent payload falls back to a constant string per arm. The fallback
  never depends on the record's index.
- An unrecognised directive name reaches `default:` and does nothing. It is
  not echoed as markdown.
- The `'updateToolInvocation'` label is mixed-case, but names are lower-cased
  before the switch. So that arm is modelled as written and proved
  unreachable.
- The handler never checks for cancellation.
- `currentToolInvocationIndex` is module-level, so it is never reset between
  requests. The model takes the state in and hands it back out.

## Model

| member | source | states |
|---|---|---|
| Strings.Trim | src/echo.ts:37 | the result is trimmed at both ends, no longer than the input, and empty exactly when the input is all whitespace |
| Strings.TrimIsInfix | src/echo.ts:37 | what `trim` keeps is a contiguous piece of the input with only whitespace on either side |
| Strings.TrimCharacterization | src/echo.ts:37 | a trimmed core wrapped in whitespace trims back to exactly that core |
| Strings.TrimIdempotent | src/echo.ts:37 | trimming twice is the same as trimming once |
| Strings.TrimStartIsSuffix | src/echo.ts:37 | dropping leading whitespace keeps a suffix and removes only whitespace |
| Strings.TrimEndIsPrefix | src/echo.ts:37 | dropping trailing whitespace keeps a prefix and removes only whitespace |
| Strings.Lower | src/echo.ts:41 | lower-casing keeps the length; each capital `A`-`Z` becomes the letter the same distance from `a`, every other character is kept; no upper-case letter is left, and whitespace maps to whitespace position by position |
| Strings.LowerConcat | src/echo.ts:41 | lower-casing works character by character, so it distributes over concatenation |
| Strings.TrimLowerCommute | src/echo.ts:41 | trimming then lower-casing gives the same name as lower-casing then trimming |
| Strings.LowerFixesExactlyLowerCase | src/echo.ts:41 | lower-casing leaves a string unchanged if and only if it has no upper-case letter |
| Strings.LowerKeepsTrimmed | src/echo.ts:41 | a trimmed name is still trimmed after lower-casing |
| Strings.SplitOn | src/echo.ts:40 | `split` always yields at least one piece, and no piece contains the separator |
| Strings.JoinSplitOn | src/echo.ts:40-42 | joining the pieces of a split with the same separator gives back the original string |
| Strings.SplitOnJoin | src/echo.ts:40-42 | splitting the join of separator-free pieces gives back the pieces |
| Strings.SplitOnConcat | src/echo.ts:36 | splitting `a + sep + b` gives the pieces of `a` followed by those of `b` |
| Strings.SplitOnWithoutSeparator | src/echo.ts:40 | a string with no separator splits into itself alone |
| Strings.SplitAtFirst | src/echo.ts:40-42 | the first piece is the text before the first separator; re-joining the rest gives the text after it verbatim, later separators included |
| Strings.NatToString | src/echo.ts:79 | `${index}` is a non-empty numeral of decimal digits with no leading zero |
| Strings.DecimalValueOfNatToString | src/echo.ts:79 | reading the numeral back gives the number |
| Strings.NatToStringInjective | src/echo.ts:79 | different numbers render as different numerals |
| Strings.PrefixedNumeralInjective | src/echo.ts:97 | a fixed prefix followed by different numerals gives different ids |
| Parser.SplitLines | src/echo.ts:36 | `split(/\r?\n/)` yields as many pieces as splitting at line feeds; a piece that ends in a carriage return before its break loses exactly that carriage return and every other piece is unchanged; none contains a line feed; the last piece keeps any carriage return |
| Parser.TrimSplitLines | src/echo.ts:36-37 | after trimming, a carriage return before a line feed makes no difference |
| Parser.TrimAll | src/echo.ts:37 | `map(line => line.trim())` keeps the number of lines and trims each one in place |
| Parser.NonBlank | src/echo.ts:38 | the filter keeps exactly the non-empty lines and never adds one |
| Parser.NonBlankConcat | src/echo.ts:38 | filtering a concatenation filters each part in order |
| Parser.PromptLines | src/echo.ts:36-38 | every line that survives is non-empty and trimmed; the lines are exactly the non-blank trimmed pieces of a plain line-feed split, so a carriage return before a break never shows |
| Parser.PromptLinesConcat | src/echo.ts:36-38 | the lines of `a + "\n" + b` are the lines of `a` followed by those of `b` |
| Parser.DirectiveName | src/echo.ts:41-44 | a directive name is never empty, is trimmed and has no upper-case letter; it is `markdown` when the raw text is all whitespace and otherwise the lower-cased trimmed text |
| Parser.NameIgnoresCase | src/echo.ts:41 | two raw names that differ only in ASCII case read as the same directive, so they select the same arm |
| Parser.PayloadText | src/echo.ts:42 | the payload is absent exactly when the text after the colon is all whitespace; a present payload is that text trimmed, so it is never empty |
| Parser.ParseLine | src/echo.ts:40-47 | a record keeps its index and is well formed: non-empty, trimmed, lower-case name, and a payload that is non-empty and trimmed when present |
| Parser.ParseLineIndex | src/echo.ts:39-46 | the index takes no part in reading a line: only the index field differs between two numberings |
| Parser.ParseLineWithColon | src/echo.ts:40-42 | with a colon at `k` and none before it, the name is read from the text before it and the payload from all the text after it |
| Parser.ParseLineWithoutColon | src/echo.ts:40-42 | a line without a colon is all name and has no payload |
| Parser.Number | src/echo.ts:39-47 | one record per line; the record at position `i` is line `i` read with index `i`, and is well formed |
| Parser.NumberConcat | src/echo.ts:39-46 | numbering two blocks of lines numbers the second block on from the end of the first |
| Parser.ParsePromptLines | src/echo.ts:35-49 | one record per non-blank line; the record at position `i` has index `i`; every record is well formed |
| Parser.ParseConcat | src/echo.ts:35-49 | parsing `a + "\n" + b` gives the records of `a`, then those of `b` numbered on from them, so records follow the order of the lines |
| Parser.WhitespacePromptIsEmpty | src/echo.ts:36-38 | a prompt of whitespace and line breaks only yields no records |
| Parser.BlankLineTakesNoIndex | src/echo.ts:36-39 | inserting a whitespace-only line anywhere leaves the records, indices included, unchanged |
| Parser.ParseSingleLine | src/echo.ts:35-49 | a prompt without line breaks yields nothing when blank and otherwise one record, index 0, read from the trimmed line |
| Dispatcher.FileReferenceUri | src/echo.ts:133-141 | the result is absent exactly when no reference is a URI inside the workspace; otherwise it is the URI of the first reference that is |
| Dispatcher.Classify | src/echo.ts:61-130 | a name selects an arm whose case label (`markdown`, `textedit`, `toolcall`, `begintoolinvocation`, `updateToolInvocation`, `codeblockuri`, `progress`, `thinkingprogress`, `warning`, `confirmation`, `questioncarousel`) equals it exactly, and falls to `default:` if and only if no label does |
| Dispatcher.ClassifyLabel | src/echo.ts:61-126 | each case label selects its own arm, so no two arms share a label |
| Dispatcher.UpdateArmNeedsUpperCase | src/echo.ts:83 | a name without upper-case letters never selects the `'updateToolInvocation'` arm |
| Dispatcher.Dispatch | src/echo.ts:54-131 | nothing is emitted exactly for `default:` and for `textedit` without a reference; any other effect is of the kind of the selected arm; only `begintoolinvocation` sets the state, to its own index |
| DispatchProperties.DispatchPayload | src/echo.ts:62-126 | every emitted payload is the record's own when present, else the arm's fixed fallback: `hello`, `text edit`, `default input`, `Working ...`, `Thinking ...`, `warning`, `confirmation`, `Question carousel` (and `updated input` for the unreachable update arm); `markdown` tests with `\|\|`, so it also falls back on an empty payload |
| DispatchProperties.PresentPayloadPassesThrough | src/echo.ts:63-119 | a present payload reaches the stream call unchanged |
| DispatchProperties.AbsentPayloadFallsBack | src/echo.ts:63-119 | an absent payload becomes the arm's constant, the same at every index |
| DispatchProperties.DispatchIds | src/echo.ts:79-117 | ids are `cvdtool-i`, `thinking-i` and `question-i` from the record's index `i`; the update arm would use the session's index |
| DispatchProperties.DispatchFixedArguments | src/echo.ts:74-124 | the tool name is `cvdtool`; a confirmation has the fixed title and buttons and carries `{directive, index}`; a question carousel has one text question with the fixed message and passes `true` |
| DispatchProperties.OnlyBeginMovesSession | src/echo.ts:78-82 | a record that changes the state is a `begintoolinvocation`, and it sets the state to its own index |
| DispatchProperties.ParsedEffectIgnoresSession | src/echo.ts:83-86 | a parsed record never selects the update arm, so its effect is the same in every state and is never a tool-invocation update |
| DispatchProperties.UnrecognisedIsNoOp | src/echo.ts:127-129 | an unrecognised name, or the lower-case `updatetoolinvocation`, emits nothing and keeps the state |
| DispatchProperties.IdsSeparateIndices | src/echo.ts:79-117 | two records of an id-carrying arm at different indices get different ids |
| DispatchProperties.BeginIdFromIndex | src/echo.ts:79 | a begun tool invocation's id is `ToolCallId` of its record's index: `cvdtool-` followed by the index in decimal |
| DispatchProperties.ToolCallIdInjective | src/echo.ts:79 | different indices give different tool-call ids `cvdtool-${index}` |
| DispatchProperties.ReferenceHandling | src/echo.ts:67-90 | `textedit` does nothing without a reference and inserts at (0,0) of the reference with one; `codeblockuri` uses the reference or the placeholder `file:///tmp/tmp.txt`, always with `false` |
| Handler.PromptText | src/echo.ts:15 | a missing prompt reads as the empty string; a present one is used as it is |
| Handler.IsBeginClassify | src/echo.ts:78 | a record begins a tool invocation exactly when its name selects that arm |
| Handler.LatestBeginIsLastBegin | src/echo.ts:80 | after a run of records the state is unchanged if none begins a tool invocation, and otherwise is the index of the last one that does |
| Handler.LatestBeginStep | src/echo.ts:19-20 | running one record and then the rest ends in the same state as running them all |
| Handler.DispatchAll | src/echo.ts:19-22 | the loop emits one effect per record and ends in the state of the last `begintoolinvocation` (or the initial one) |
| Handler.DispatchAllEffect | src/echo.ts:19-22 | the `i`-th effect of the loop is record `i` dispatched in the state the records before it left |
| Handler.ParsedRunIgnoresSession | src/echo.ts:19-22 | for parsed records, every effect of the loop is the record's dispatch in the initial state |
| Handler.HandleRequest | src/echo.ts:15-22 | a response is the heading followed by exactly one effect per parsed record, and ends in the state of the last `begintoolinvocation` |
| Handler.HandleRequestEffect | src/echo.ts:18-22 | after the heading, the effect at position `i + 1` is record `i` dispatched against the request's file reference |
| HandlerProperties.FirstRequestState | src/echo.ts:51 | starting from the module's initial index 0, a request ends with the index still 0 or at the position of some record that begins a tool invocation |
| HandlerProperties.NoUpdateAt | src/echo.ts:83-86 | the effect a response emits for any one record is never a tool-invocation update |
| HandlerProperties.NoUpdateInAnyTrace | src/echo.ts:83-86 | no request ever produces a tool-invocation update |
| HandlerProperties.BeginIdInTrace | src/echo.ts:79 | a tool invocation begun in a response is named after its record's position in the prompt |
| HandlerProperties.BeginIdsAreDistinct | src/echo.ts:79 | within one response, no two begun tool invocations share an id |
| Scenarios.ReadLine | src/echo.ts:40-42 | a line `name: payload` whose parts need no trimming reads as exactly that name and payload |
| Scenarios.ReadBareName | src/echo.ts:42 | `name:` with nothing after the colon has no payload |
| Scenarios.SingleTrimmedLine | src/echo.ts:35-49 | a prompt that is one trimmed line gives exactly one record at index 0 |
| Scenarios.TrailingBreakAddsNothing | src/echo.ts:36-38 | a line break after the last line adds no record |
| Scenarios.TwoLinesWithTrailingBreak | src/echo.ts:36-39 | two lines and a trailing break give two records numbered 0 and 1 |
| Scenarios.TwoLineScript | src/echo.ts:35-49 | `progress: doing x`, `warning:` and a trailing break parse to a progress record with payload `doing x` and a warning record with no payload |
| Scenarios.WarningWithoutPayload | src/echo.ts:100-103 | `warning` without a payload warns with the text `warning` and keeps the state |
| Scenarios.MarkdownEchoes | src/echo.ts:62-65 | `markdown: hi` emits `hi` followed by a line break |
| Scenarios.UnknownIsNoOp | src/echo.ts:127-129 | `frobnicate: hi` emits nothing and keeps the state |
| Scenarios.NamesAreCaseInsensitive | src/echo.ts:41 | `Progress: x` reads as the directive `progress` |
| Scenarios.LoneColon | src/echo.ts:44 | a line that is only a colon reads as `markdown` with no payload |
| Scenarios.LaterColonsKept | src/echo.ts:42 | in `warning: a:b` the payload is `a:b`: later colons are kept |

## Left out

- The VS Code API: the `stream.*` methods, `vscode.lm.invokeTool`, `vscode.TextEdit.insert`, `vscode.Position`, `vscode.Uri.parse` and `vscode.workspace.getWorkspaceFolder`. These are host calls. They become `Effect` constructors, plain datatypes and the `inWorkspace` parameter.
- `sleep(500)` and the `async`/`await` suspension points (src/echo.ts:3-5, 21). They are timing only. The model keeps the order of effects, which is all the loop fixes.
- The tool invocation token passed to `invokeTool`. It is opaque host data.
- The result of `invokeTool` and `questionCarousel`. The code awaits them and discards them.
- Handler.HandleRequest: assumes every host call returns normally. If the awaited `vscode.lm.invokeTool` (src/echo.ts:75) or `stream.questionCarousel` (src/echo.ts:114) rejects, the source's loop ends early and the response has fewer than one effect per record. src/main.ts registers no `cvdtool`, so `toolcall` may well reject when run on its own.
- `getFileReferenceUri` runs once per directive in the source. The model runs it once per request. The two agree as long as the workspace folders do not change during a request.
- Strings.Lower: lower-cases ASCII letters only. `toLowerCase` also maps other Unicode letters, and a few of those map to more than one character. Directive labels are ASCII, so the arm selected is the same for ASCII names. One non-ASCII character changes the arm: U+212A KELVIN SIGN lower-cases to ASCII `k`, so `MAR\u212ADOWN: hi` selects `markdown` in the source but `default:` in the model, and likewise for names spelling `thinkingprogress` and `codeblockuri` with it.
- Strings.IsWhitespace: strings are sequences of Unicode scalar values, not UTF-16 code units, so lone surrogates cannot be represented. Every `trim` whitespace code point lies in the Basic Multilingual Plane, so trimming agrees on every representable string.
- Strings.NatToString: renders every natural number in plain decimal. JavaScript switches to exponent notation at 10^21, but an array index never gets that large.
- Dispatcher.Dispatch: its contract fixes the kind of effect and the next state only. The payload, ids and fixed arguments are in the `DispatchProperties` lemmas.
- src/tool.ts, the echo tool behind `invokeTool`, is not part of this model. Its output is discarded by the `toolcall` arm.
- src/main.ts, the extension registration, is not part of this model.
