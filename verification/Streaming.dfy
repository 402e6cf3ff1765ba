/**
 The streaming token printer: it labels each stretch of thinking, content, tool names
 or tool arguments once, whatever pieces the model's deltas arrive in.
 */
module Streaming {

  import opened Prelude

  datatype Kind = Thinking | Content | ToolName | ToolArgs

  datatype State = Idle | In(kind: Kind)

  /** An absent or non-string field is the empty string: both are skipped. */
  datatype ToolCall = ToolCall(name: string, args: string)

  datatype Choice = NoDelta | Delta(reasoning: string, content: string, toolCalls: seq<ToolCall>)

  function Label(kind: Kind): string {
    match kind
    case Thinking => "THINKING: "
    case Content => "CONTENT: "
    case ToolName => "TOOL NAME: "
    case ToolArgs => "TOOL ARGS: "
  }

  // ----- what was said: characters, each with its kind -----

  datatype Said = Said(kind: Kind, letter: char)

  function Tagged(kind: Kind, text: string): seq<Said> {
    if text == "" then []
    else Tagged(kind, text[..|text| - 1]) + [Said(kind, text[|text| - 1])]
  }

  function OfCalls(calls: seq<ToolCall>): seq<Said> {
    if calls == [] then [] else OfCalls(calls[..|calls| - 1]) + OfCall(calls[|calls| - 1])
  }

  function OfCall(call: ToolCall): seq<Said> {
    Tagged(ToolName, call.name) + Tagged(ToolArgs, call.args)
  }

  function OfChoice(choice: Choice): seq<Said> {
    match choice
    case NoDelta => []
    case Delta(reasoning, content, calls) =>
      Tagged(Thinking, reasoning) + Tagged(Content, content) + OfCalls(calls)
  }

  function OfChunk(choices: seq<Choice>): seq<Said> {
    if choices == [] then []
    else OfChunk(choices[..|choices| - 1]) + OfChoice(choices[|choices| - 1])
  }

  // ----- what should be shown: maximal runs, one labelled line each -----

  datatype Lines = NoLines | Line(earlier: Lines, kind: Kind, text: string)

  function Extended(lines: Lines, kind: Kind, text: string): Lines {
    if lines.Line? && lines.kind == kind
    then Line(lines.earlier, kind, lines.text + text)
    else Line(lines, kind, text)
  }

  function Runs(said: seq<Said>): Lines {
    if said == [] then NoLines
    else
      var last := said[|said| - 1];
      Extended(Runs(said[..|said| - 1]), last.kind, [last.letter])
  }

  function Render(lines: Lines): string {
    match lines
    case NoLines => ""
    case Line(earlier, kind, text) =>
      Render(earlier) + ((if earlier == NoLines then "" else "\n") + (Label(kind) + text))
  }

  function Unrun(lines: Lines): seq<Said> {
    match lines
    case NoLines => []
    case Line(earlier, kind, text) => Unrun(earlier) + Tagged(kind, text)
  }

  predicate Maximal(lines: Lines) {
    lines.Line? ==>
      && lines.text != ""
      && (lines.earlier.Line? ==> lines.earlier.kind != lines.kind)
      && Maximal(lines.earlier)
  }

  lemma {:induction false} TaggedAppend(kind: Kind, first: string, rest: string)
    ensures Tagged(kind, first + rest) == Tagged(kind, first) + Tagged(kind, rest)
  {
    if rest == "" {
      assert first + rest == first;
    } else {
      var n := |rest| - 1;
      assert (first + rest)[..|first + rest| - 1] == first + rest[..n];
      TaggedAppend(kind, first, rest[..n]);
      AppendIsAssociative(Tagged(kind, first), Tagged(kind, rest[..n]), [Said(kind, rest[n])]);
    }
  }

  lemma ExtendedLosesNothing(lines: Lines, kind: Kind, text: string)
    ensures Unrun(Extended(lines, kind, text)) == Unrun(lines) + Tagged(kind, text)
  {
    if lines.Line? && lines.kind == kind {
      TaggedAppend(kind, lines.text, text);
      AppendIsAssociative(Unrun(lines.earlier), Tagged(kind, lines.text), Tagged(kind, text));
    }
  }

  /** Grouping loses nothing, and no two neighbouring runs could be one. */
  lemma {:induction false} RunsAreMaximal(said: seq<Said>)
    ensures Maximal(Runs(said)) && Unrun(Runs(said)) == said
  {
    if said != [] {
      var n := |said| - 1;
      var earlier, last := said[..n], said[n];
      RunsAreMaximal(earlier);
      assert Maximal(Extended(Runs(earlier), last.kind, [last.letter]));
      ExtendedLosesNothing(Runs(earlier), last.kind, [last.letter]);
      assert Tagged(last.kind, [last.letter]) == [last];
      assert said == earlier + [last];
    }
  }

  /** There is only one such grouping. */
  lemma {:induction false} MaximalRunsAreUnique(lines: Lines)
    requires Maximal(lines)
    ensures Runs(Unrun(lines)) == lines
  {
    if lines.Line? {
      MaximalRunsAreUnique(lines.earlier);
      RunsAppend(Unrun(lines.earlier), lines.kind, lines.text);
    }
  }

  // ----- adding one piece -----

  lemma RunsSnoc(said: seq<Said>, kind: Kind, letter: char)
    ensures Runs(said + [Said(kind, letter)]) == Extended(Runs(said), kind, [letter])
  {
    assert (said + [Said(kind, letter)])[..|said|] == said;
  }

  lemma ExtendTwice(lines: Lines, kind: Kind, first: string, rest: string)
    ensures Extended(Extended(lines, kind, first), kind, rest) == Extended(lines, kind, first + rest)
  {
    if lines.Line? {
      AppendIsAssociative(lines.text, first, rest);
    }
  }

  lemma {:induction false} RunsAppend(said: seq<Said>, kind: Kind, text: string)
    requires text != ""
    ensures Runs(said + Tagged(kind, text)) == Extended(Runs(said), kind, text)
    decreases |text|
  {
    var n := |text| - 1;
    var earlier := Tagged(kind, text[..n]);
    AppendIsAssociative(said, earlier, [Said(kind, text[n])]);
    RunsSnoc(said + earlier, kind, text[n]);
    if n == 0 {
      assert said + earlier == said && text == [text[0]];
    } else {
      RunsAppend(said, kind, text[..n]);
      ExtendTwice(Runs(said), kind, text[..n], [text[n]]);
      assert text[..n] + [text[n]] == text;
    }
  }

  /** How the next piece reads: it goes on with the last line, or opens a labelled one. */
  function Opening(lines: Lines, kind: Kind): string {
    if lines == NoLines then Label(kind)
    else if lines.kind == kind then ""
    else "\n" + Label(kind)
  }

  lemma RenderExtended(lines: Lines, kind: Kind, text: string)
    ensures Render(Extended(lines, kind, text)) == Render(lines) + (Opening(lines, kind) + text)
  {
    if lines.Line? && lines.kind == kind {
      var lead := if lines.earlier == NoLines then "" else "\n";
      AppendIsAssociative(Label(kind), lines.text, text);
      AppendIsAssociative(lead, Label(kind) + lines.text, text);
      AppendIsAssociative(Render(lines.earlier), lead + (Label(kind) + lines.text), text);
      assert Opening(lines, kind) + text == text;
    } else {
      var lead := if lines == NoLines then "" else "\n";
      AppendIsAssociative(lead, Label(kind), text);
      assert Opening(lines, kind) == lead + Label(kind);
    }
  }

  // ----- the printer -----

  ghost predicate Shows(said: seq<Said>, state: State, output: string) {
    var lines := Runs(said);
    && output == Render(lines)
    && state == if lines == NoLines then Idle else In(lines.kind)
  }

  class TokenPrinter {
    var state: State
    var output: string
    /** Everything said so far, in order, without regard to how it was cut into deltas. */
    ghost var said: seq<Said>

    ghost predicate Valid()
      reads this
    {
      Shows(said, state, output)
    }

    constructor ()
      ensures Valid() && said == [] && output == ""
    {
      state, output, said := Idle, "", [];
    }

    method Write(kind: Kind, text: string)
      requires Valid()
      modifies this
      ensures Valid() && said == old(said) + Tagged(kind, text)
    {
      if text == "" {
        assert said + Tagged(kind, text) == said;
        return;
      }
      ghost var lines := Runs(said);
      RunsAppend(said, kind, text);
      RenderExtended(lines, kind, text);
      AppendIsAssociative(output, Opening(lines, kind), text);
      if state != In(kind) {
        if state != Idle {
          output := output + "\n";
        }
        AppendIsAssociative(old(output), "\n", Label(kind));
        output := output + Label(kind);
        state := In(kind);
      }
      assert output == old(output) + Opening(lines, kind);
      output := output + text;
      said := said + Tagged(kind, text);
    }

    method WriteCall(call: ToolCall)
      requires Valid()
      modifies this
      ensures Valid() && said == old(said) + OfCall(call)
    {
      Write(ToolName, call.name);
      Write(ToolArgs, call.args);
      AppendIsAssociative(old(said), Tagged(ToolName, call.name), Tagged(ToolArgs, call.args));
    }

    method WriteCalls(calls: seq<ToolCall>)
      requires Valid()
      modifies this
      ensures Valid() && said == old(said) + OfCalls(calls)
    {
      for i := 0 to |calls|
        invariant Valid() && said == old(said) + OfCalls(calls[..i])
      {
        WriteCall(calls[i]);
        assert calls[..i + 1][..i] == calls[..i];
        AppendIsAssociative(old(said), OfCalls(calls[..i]), OfCall(calls[i]));
      }
      assert calls[..|calls|] == calls;
    }

    method OnChoice(choice: Choice)
      requires Valid()
      modifies this
      ensures Valid() && said == old(said) + OfChoice(choice)
    {
      if choice.Delta? {
        ghost var first, second := Tagged(Thinking, choice.reasoning), Tagged(Content, choice.content);
        Write(Thinking, choice.reasoning);
        Write(Content, choice.content);
        WriteCalls(choice.toolCalls);
        AppendIsAssociative(old(said), first, second);
        AppendIsAssociative(old(said), first + second, OfCalls(choice.toolCalls));
      }
    }

    method OnToken(choices: seq<Choice>)
      requires Valid()
      modifies this
      ensures Valid() && said == old(said) + OfChunk(choices)
    {
      for i := 0 to |choices|
        invariant Valid() && said == old(said) + OfChunk(choices[..i])
      {
        OnChoice(choices[i]);
        assert choices[..i + 1][..i] == choices[..i];
        AppendIsAssociative(old(said), OfChunk(choices[..i]), OfChoice(choices[i]));
      }
      assert choices[..|choices|] == choices;
    }
  }

  ghost function OfStream(chunks: seq<seq<Choice>>): seq<Said> {
    if chunks == [] then [] else OfStream(chunks[..|chunks| - 1]) + OfChunk(chunks[|chunks| - 1])
  }

  /** A whole run of the callback prints the maximal runs of what the stream said. */
  method PrintStream(chunks: seq<seq<Choice>>) returns (output: string)
    ensures output == Render(Runs(OfStream(chunks)))
  {
    var printer := new TokenPrinter();
    for i := 0 to |chunks|
      invariant fresh(printer) && printer.Valid() && printer.said == OfStream(chunks[..i])
    {
      printer.OnToken(chunks[i]);
      assert chunks[..i + 1][..i] == chunks[..i];
    }
    assert chunks[..|chunks|] == chunks;
    output := printer.output;
  }
}
