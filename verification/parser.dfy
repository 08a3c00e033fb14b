/**
 The prompt parser (`parsePromptLines`): a prompt becomes one directive record
 per non-blank line, numbered from 0 in the order the lines appear.
 */
module Parser {
  import opened Strings
  import opened Optional

  /** One parsed line (`ParsedDirective`): the lower-cased directive name, the
      optional payload, and the line's rank among the non-blank lines. */
  datatype DirectiveRecord = DirectiveRecord(directive: string, payload: Option<string>, index: nat)

  /** The name a line gets when the text before its first colon is blank. */
  const FallbackDirective: string := "markdown"

  /** What every parsed record satisfies: a non-empty, trimmed directive name
      without upper-case letters, and a payload that, when present, is
      non-empty and trimmed. */
  predicate WellFormed(r: DirectiveRecord) {
    && r.directive != [] && IsTrimmed(r.directive) && HasNoUpper(r.directive)
    && (r.payload.Some? ==> r.payload.value != [] && IsTrimmed(r.payload.value))
  }

  /** Removes one carriage return at the end of a line, if there is one. */
  function DropCarriageReturn(line: string): string {
    if |line| > 0 && line[|line| - 1] == '\r' then line[..|line| - 1] else line
  }

  /** `split(/\r?\n/)`: the pieces between line feeds, where a carriage return
      directly before a line feed belongs to the separator. */
  function SplitLines(s: string): (lines: seq<string>)
    ensures |lines| == |SplitOn(s, '\n')|
    ensures forall i :: 0 <= i < |lines| ==> '\n' !in lines[i]
    ensures forall i :: 0 <= i < |lines| - 1 ==>
              var piece := SplitOn(s, '\n')[i];
              if |piece| > 0 && piece[|piece| - 1] == '\r' then lines[i] + "\r" == piece else lines[i] == piece
    ensures |lines| > 0 && lines[|lines| - 1] == SplitOn(s, '\n')[|lines| - 1]
  {
    var pieces := SplitOn(s, '\n');
    seq(|pieces|, i requires 0 <= i < |pieces| =>
      if i < |pieces| - 1 then DropCarriageReturn(pieces[i]) else pieces[i])
  }

  /** Dropping a final carriage return never changes what a line trims to. */
  lemma TrimDropCarriageReturn(line: string)
    ensures Trim(DropCarriageReturn(line)) == Trim(line)
  {
  }

  /** After trimming, the carriage-return handling of `SplitLines` is invisible. */
  lemma TrimSplitLines(s: string)
    ensures TrimAll(SplitLines(s)) == TrimAll(SplitOn(s, '\n'))
  {
    var pieces := SplitOn(s, '\n');
    var lines := SplitLines(s);
    forall i | 0 <= i < |pieces|
      ensures Trim(lines[i]) == Trim(pieces[i])
    {
      if i < |pieces| - 1 {
        assert lines[i] == DropCarriageReturn(pieces[i]);
        TrimDropCarriageReturn(pieces[i]);
      }
    }
  }

  function TrimAll(lines: seq<string>): (r: seq<string>)
    ensures |r| == |lines|
    ensures forall i :: 0 <= i < |r| ==> r[i] == Trim(lines[i])
  {
    seq(|lines|, i requires 0 <= i < |lines| => Trim(lines[i]))
  }

  /** `filter(line => line.length > 0)`: the non-empty lines, in order. */
  function NonBlank(lines: seq<string>): (r: seq<string>)
    ensures |r| <= |lines|
    ensures forall x :: x in r <==> x in lines && x != []
  {
    if lines == [] then []
    else (if lines[0] == [] then [] else [lines[0]]) + NonBlank(lines[1..])
  }

  /** Filtering a concatenation filters each part. */
  lemma {:induction false} NonBlankConcat(a: seq<string>, b: seq<string>)
    ensures NonBlank(a + b) == NonBlank(a) + NonBlank(b)
  {
    if a != [] {
      assert (a + b)[0] == a[0];
      assert (a + b)[1..] == a[1..] + b;
      NonBlankConcat(a[1..], b);
    } else {
      assert a + b == b;
    }
  }

  /** Nothing survives filtering a list of empty lines. */
  lemma {:induction false} NonBlankOfBlank(lines: seq<string>)
    requires forall i :: 0 <= i < |lines| ==> lines[i] == []
    ensures NonBlank(lines) == []
  {
    if lines != [] {
      NonBlankOfBlank(lines[1..]);
    }
  }

  /** The trimmed, non-blank lines of a prompt, in order. */
  function PromptLines(input: string): (lines: seq<string>)
    ensures forall i :: 0 <= i < |lines| ==> lines[i] != [] && IsTrimmed(lines[i])
    ensures lines == NonBlank(TrimAll(SplitOn(input, '\n')))
  {
    var trimmed := TrimAll(SplitLines(input));
    var lines := NonBlank(trimmed);
    assert forall i :: 0 <= i < |lines| ==> lines[i] in trimmed;
    TrimSplitLines(input);
    lines
  }

  /** The directive name read from the text before the first colon: trimmed
      and lower-cased, or the fallback when that leaves nothing. */
  function DirectiveName(raw: string): (name: string)
    ensures name != [] && IsTrimmed(name) && HasNoUpper(name)
    ensures AllWhitespace(raw) ==> name == FallbackDirective
    ensures !AllWhitespace(raw) ==> name == Lower(Trim(raw))
  {
    var name := Lower(Trim(raw));
    LowerKeepsTrimmed(Trim(raw));
    if name == [] then FallbackDirective else name
  }

  /** Names that differ only in the case of ASCII letters read as the same
      directive. */
  lemma NameIgnoresCase(a: string, b: string)
    requires Lower(a) == Lower(b)
    ensures DirectiveName(a) == DirectiveName(b)
  {
    TrimLowerCommute(a);
    TrimLowerCommute(b);
  }

  /** The payload read from the text after the first colon: trimmed, and
      absent when that leaves nothing. */
  function PayloadText(rest: string): (payload: Option<string>)
    ensures payload.Some? ==> payload.value != [] && IsTrimmed(payload.value)
    ensures payload.None? <==> AllWhitespace(rest)
    ensures payload.Some? ==> payload.value == Trim(rest)
  {
    var payload := Trim(rest);
    if payload == [] then None else Some(payload)
  }

  /** Reads one trimmed line: splits it at every colon, takes the first piece
      as the name and re-joins the others as the payload. */
  function ParseLine(line: string, index: nat): (r: DirectiveRecord)
    ensures r.index == index && WellFormed(r)
  {
    var parts := SplitOn(line, ':');
    DirectiveRecord(DirectiveName(parts[0]), PayloadText(Join(parts[1..], ':')), index)
  }

  /** The index is carried through untouched: it plays no part in reading the line. */
  lemma ParseLineIndex(line: string, i: nat, j: nat)
    ensures ParseLine(line, j) == ParseLine(line, i).(index := j)
  {
  }

  /** A line with a colon: the name comes from the text before the first colon
      and the payload is everything after it, later colons included. */
  lemma ParseLineWithColon(line: string, k: nat, index: nat)
    requires k < |line| && line[k] == ':' && ':' !in line[..k]
    ensures ParseLine(line, index) == DirectiveRecord(DirectiveName(line[..k]), PayloadText(line[k + 1..]), index)
  {
    SplitAtFirst(line, ':', k);
  }

  /** A line without a colon is all name and has no payload. */
  lemma ParseLineWithoutColon(line: string, index: nat)
    requires ':' !in line
    ensures ParseLine(line, index) == DirectiveRecord(DirectiveName(line), None, index)
  {
    SplitOnWithoutSeparator(line, ':');
  }

  /** `map((line, index) => ...)`: reads each line, numbering from 0. */
  function Number(lines: seq<string>): (records: seq<DirectiveRecord>)
    ensures |records| == |lines|
    ensures forall i :: 0 <= i < |records| ==> records[i].index == i && WellFormed(records[i])
    ensures forall i :: 0 <= i < |records| ==> records[i] == ParseLine(lines[i], i)
  {
    seq(|lines|, i requires 0 <= i < |lines| => ParseLine(lines[i], i))
  }

  /** `parsePromptLines`: one record per non-blank line; each record's index is
      its position in the result. */
  function ParsePromptLines(input: string): (records: seq<DirectiveRecord>)
    ensures |records| == |PromptLines(input)|
    ensures forall i :: 0 <= i < |records| ==> records[i].index == i && WellFormed(records[i])
  {
    Number(PromptLines(input))
  }

  /** Moves every record's index up by `n`. */
  function Shift(records: seq<DirectiveRecord>, n: nat): (r: seq<DirectiveRecord>)
    ensures |r| == |records|
  {
    seq(|records|, i requires 0 <= i < |records| => records[i].(index := records[i].index + n))
  }

  /** Trimming a concatenation trims each part. */
  lemma TrimAllConcat(x: seq<string>, y: seq<string>)
    ensures TrimAll(x + y) == TrimAll(x) + TrimAll(y)
  {
  }

  /** The lines of `a + "\n" + b` are the lines of `a` followed by those of `b`. */
  lemma PromptLinesConcat(a: string, b: string)
    ensures PromptLines(a + "\n" + b) == PromptLines(a) + PromptLines(b)
  {
    var s := a + "\n" + b;
    var pa, pb := SplitOn(a, '\n'), SplitOn(b, '\n');
    SplitOnConcat(a, '\n', b);
    assert SplitOn(s, '\n') == pa + pb;
    TrimAllConcat(pa, pb);
    TrimSplitLines(s);
    TrimSplitLines(a);
    TrimSplitLines(b);
    NonBlankConcat(TrimAll(pa), TrimAll(pb));
  }

  /** Numbering a concatenation numbers the second part on from the first. */
  lemma NumberConcat(x: seq<string>, y: seq<string>)
    ensures Number(x + y) == Number(x) + Shift(Number(y), |x|)
  {
    var r, nx, ny := Number(x + y), Number(x), Number(y);
    var shifted := Shift(ny, |x|);
    var expected := nx + shifted;
    forall k | 0 <= k < |r|
      ensures r[k] == expected[k]
    {
      assert r[k] == ParseLine((x + y)[k], k);
      if k < |x| {
        assert (x + y)[k] == x[k];
        assert expected[k] == nx[k] == ParseLine(x[k], k);
      } else {
        var i := k - |x|;
        assert (x + y)[k] == y[i];
        assert |nx| == |x|;
        assert expected[k] == shifted[i];
        assert ny[i].index == i;
        assert shifted[i] == ny[i].(index := ny[i].index + |x|);
        assert ny[i] == ParseLine(y[i], i);
        ParseLineIndex(y[i], i, k);
      }
    }
    assert r == expected;
  }

  /** Parsing two scripts joined by a line break parses each in turn, the
      second one numbered on from where the first one stopped. */
  lemma ParseConcat(a: string, b: string)
    ensures ParsePromptLines(a + "\n" + b) ==
              ParsePromptLines(a) + Shift(ParsePromptLines(b), |ParsePromptLines(a)|)
  {
    PromptLinesConcat(a, b);
    NumberConcat(PromptLines(a), PromptLines(b));
  }

  /** Every line piece of a whitespace-only string is whitespace-only. */
  lemma {:induction false} SplitOnOfWhitespace(s: string, sep: char)
    requires AllWhitespace(s)
    ensures forall i :: 0 <= i < |SplitOn(s, sep)| ==> AllWhitespace(SplitOn(s, sep)[i])
  {
    if s != [] {
      assert AllWhitespace(s[1..]);
      SplitOnOfWhitespace(s[1..], sep);
      var rest := SplitOn(s[1..], sep);
      assert AllWhitespace([s[0]] + rest[0]);
    }
  }

  /** A whitespace-only prompt (line breaks included) yields no records. */
  lemma WhitespacePromptIsEmpty(input: string)
    requires AllWhitespace(input)
    ensures ParsePromptLines(input) == []
  {
    SplitOnOfWhitespace(input, '\n');
    TrimSplitLines(input);
    var trimmed := TrimAll(SplitOn(input, '\n'));
    assert forall i :: 0 <= i < |trimmed| ==> trimmed[i] == [];
    NonBlankOfBlank(trimmed);
  }

  /** Shifting by zero changes nothing. */
  lemma ShiftZero(records: seq<DirectiveRecord>)
    ensures Shift(records, 0) == records
  {
  }

  lemma LineBreakAssociates(a: string, w: string, b: string)
    ensures a + "\n" + w + "\n" + b == a + "\n" + (w + "\n" + b)
  {
  }

  /** Blank lines take no index: inserting a whitespace-only line anywhere
      leaves the parsed records unchanged. */
  lemma BlankLineTakesNoIndex(a: string, w: string, b: string)
    requires AllWhitespace(w)
    ensures ParsePromptLines(a + "\n" + w + "\n" + b) == ParsePromptLines(a + "\n" + b)
  {
    var pa, pb := ParsePromptLines(a), ParsePromptLines(b);
    var tail := w + "\n" + b;
    LineBreakAssociates(a, w, b);
    ParseConcat(w, b);
    WhitespacePromptIsEmpty(w);
    ShiftZero(pb);
    assert ParsePromptLines(tail) == pb;
    ParseConcat(a, tail);
    ParseConcat(a, b);
  }

  /** A single line parses to nothing when blank and otherwise to one record,
      index 0, read from the trimmed line. */
  lemma ParseSingleLine(line: string)
    requires '\n' !in line
    ensures ParsePromptLines(line) == (if Trim(line) == [] then [] else [ParseLine(Trim(line), 0)])
  {
    SplitOnWithoutSeparator(line, '\n');
    TrimSplitLines(line);
    assert TrimAll(SplitOn(line, '\n')) == [Trim(line)];
    assert [Trim(line)][1..] == [];
  }
}
