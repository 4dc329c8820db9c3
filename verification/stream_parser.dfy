/**
 * The line-oriented reader of CBMC's JSON output. CBMC prints one array whose
 * top-level objects each end with a line starting with `  }`; the parser
 * gathers lines into `inputSoFar` and decodes the gathered text whenever such a
 * line arrives. Lines starting with `[` or `]` (the array brackets) reset it.
 *
 * The JSON decoder is a parameter: `parse(text)` is what `serde_json::from_str`
 * yields for `text` (None when decoding fails).
 */
module StreamParser {
  import opened Wrappers
  import opened Strings
  import opened CbmcTypes

  datatype Action = ClearInput | ProcessItem

  /** `triggers_action`: what a line asks the parser to do once it has been gathered. */
  function TriggersAction(input: string): (a: Option<Action>)
    ensures a == Some(ClearInput) <==> StartsWith(input, "[") || StartsWith(input, "]")
    ensures a == Some(ProcessItem) <==> !StartsWith(input, "[") && !StartsWith(input, "]") && StartsWith(input, "  }")
  {
    if StartsWith(input, "[") || StartsWith(input, "]") then Some(ClearInput)
    else if StartsWith(input, "  }") then Some(ProcessItem)
    else None
  }

  /**
   * `parse_item` on the gathered text `buffer`: first without its last two
   * characters (the `,` and newline after an object that is not the last),
   * then whole; if neither decodes, the driver panics.
   */
  function ParseBuffer(buffer: string, parse: string -> Option<ParserItem>): (r: Outcome<ParserItem>)
    requires |buffer| >= 2
    ensures r.Panic? <==> parse(buffer[..|buffer| - 2]).None? && parse(buffer).None?
    ensures r.Panic? ==> r.error == UnparsableItem(buffer)
    ensures r.Ok? ==> parse(buffer[..|buffer| - 2]) == Some(r.value)
                      || (parse(buffer[..|buffer| - 2]).None? && parse(buffer) == Some(r.value))
  {
    match parse(buffer[..|buffer| - 2])
    case Some(item) => Ok(item)
    case None =>
      match parse(buffer)
      case Some(item) => Ok(item)
      case None => Panic(UnparsableItem(buffer))
  }

  /**
   * `process_line` as a function of the gathered text: the new gathered text
   * and the item the line completes, if any.
   */
  function Step(buffer: string, line: string, parse: string -> Option<ParserItem>): (r: Outcome<(string, Option<ParserItem>)>)
    ensures StartsWith(line, "[") || StartsWith(line, "]") ==> r == Ok(("", None))
    ensures TriggersAction(line).None? ==> r == Ok((buffer + line, None))
    ensures TriggersAction(line) == Some(ProcessItem) ==>
      |buffer + line| >= 2
      && (r.Panic? <==> ParseBuffer(buffer + line, parse).Panic?)
      && (r.Ok? ==> r.value == ("", Some(ParseBuffer(buffer + line, parse).value)))
    ensures r.Ok? ==> (r.value.1.Some? <==> TriggersAction(line) == Some(ProcessItem))
  {
    var gathered := buffer + line;
    match TriggersAction(line)
    case None => Ok((gathered, None))
    case Some(ClearInput) => Ok(("", None))
    case Some(ProcessItem) =>
      var item :- ParseBuffer(gathered, parse);
      Ok(("", Some(item)))
  }

  /** The items a run of lines yields, and the text left gathered after them. */
  function Run(buffer: string, lines: seq<string>, parse: string -> Option<ParserItem>): Outcome<(seq<ParserItem>, string)>
    decreases |lines|
  {
    if lines == [] then Ok(([], buffer))
    else
      var (next, item) :- Step(buffer, lines[0], parse);
      var (items, left) :- Run(next, lines[1..], parse);
      Ok(((if item.Some? then [item.value] else []) + items, left))
  }

  /** `items` in front of what `o` yields. */
  function Prepend(items: seq<ParserItem>, o: Outcome<(seq<ParserItem>, string)>): Outcome<(seq<ParserItem>, string)> {
    match o
    case Ok((rest, left)) => Ok((items + rest, left))
    case Panic(e) => Panic(e)
  }

  lemma PrependNothing(o: Outcome<(seq<ParserItem>, string)>)
    ensures Prepend([], o) == o
  {
    if o.Ok? {
      assert [] + o.value.0 == o.value.0;
    }
  }

  lemma PrependTwice(a: seq<ParserItem>, b: seq<ParserItem>, o: Outcome<(seq<ParserItem>, string)>)
    ensures Prepend(a, Prepend(b, o)) == Prepend(a + b, o)
  {
    if o.Ok? {
      assert a + (b + o.value.0) == (a + b) + o.value.0;
    }
  }

  /** The number of lines that close an item. */
  function CountClosing(lines: seq<string>): nat
    decreases |lines|
  {
    if lines == [] then 0
    else (if TriggersAction(lines[0]) == Some(ProcessItem) then 1 else 0) + CountClosing(lines[1..])
  }

  /** Every line starting with `  }` (and with neither bracket) yields exactly one item. */
  lemma {:induction false} RunYieldsOneItemPerClosingLine(buffer: string, lines: seq<string>, parse: string -> Option<ParserItem>)
    ensures Run(buffer, lines, parse).Ok? ==> |Run(buffer, lines, parse).value.0| == CountClosing(lines)
    decreases |lines|
  {
    if lines != [] {
      var s := Step(buffer, lines[0], parse);
      if s.Ok? {
        RunYieldsOneItemPerClosingLine(s.value.0, lines[1..], parse);
      }
    }
  }

  /** Without a closing line the decoder is never consulted: nothing is yielded and nothing fails. */
  lemma {:induction false} RunWithoutClosingLine(buffer: string, lines: seq<string>, parse: string -> Option<ParserItem>)
    requires CountClosing(lines) == 0
    ensures Run(buffer, lines, parse).Ok? && Run(buffer, lines, parse).value.0 == []
    decreases |lines|
  {
    if lines != [] {
      var s := Step(buffer, lines[0], parse);
      RunWithoutClosingLine(s.value.0, lines[1..], parse);
    }
  }

  /** After a line starting with `[` or `]`, what came before it no longer matters. */
  lemma {:induction false} BracketLineResets(b1: string, b2: string, line: string, lines: seq<string>, parse: string -> Option<ParserItem>)
    requires StartsWith(line, "[") || StartsWith(line, "]")
    ensures Run(b1, [line] + lines, parse) == Run(b2, [line] + lines, parse)
  {
    assert ([line] + lines)[1..] == lines;
  }

  /** `Parser`: the text gathered since the last item or bracket line. The stdout reader is not modelled. */
  class Parser {
    var inputSoFar: string

    /** `Parser::new`. */
    constructor()
      ensures inputSoFar == ""
    {
      inputSoFar := "";
    }

    /** `clear_input`. */
    method ClearInputText()
      modifies this
      ensures inputSoFar == ""
    {
      inputSoFar := "";
    }

    /** `add_to_input`. */
    method AddToInput(input: string)
      modifies this
      ensures inputSoFar == old(inputSoFar) + input
    {
      inputSoFar := inputSoFar + input;
    }

    /** `parse_item` on the gathered text. */
    function ParseItem(parse: string -> Option<ParserItem>): Outcome<ParserItem>
      reads this
      requires |inputSoFar| >= 2
    {
      ParseBuffer(inputSoFar, parse)
    }

    /** `do_action`: clearing yields nothing; processing decodes the gathered text, then clears it. */
    method DoAction(action: Action, parse: string -> Option<ParserItem>) returns (r: Outcome<Option<ParserItem>>)
      requires action == ProcessItem ==> |inputSoFar| >= 2
      modifies this
      ensures action == ClearInput ==> r == Ok(None)
      ensures action == ProcessItem ==>
        (r.Panic? <==> ParseBuffer(old(inputSoFar), parse).Panic?)
        && (r.Ok? ==> r == Ok(Some(ParseBuffer(old(inputSoFar), parse).value)))
      ensures r.Ok? ==> inputSoFar == ""
    {
      match action
      case ClearInput =>
        ClearInputText();
        r := Ok(None);
      case ProcessItem =>
        var item := ParseItem(parse);
        if item.Panic? {
          return Panic(item.error);
        }
        ClearInputText();
        r := Ok(Some(item.value));
    }

    /** `process_line`: gather the line, then act on it. */
    method ProcessLine(input: string, parse: string -> Option<ParserItem>) returns (r: Outcome<Option<ParserItem>>)
      modifies this
      ensures var s := Step(old(inputSoFar), input, parse);
        (r.Panic? <==> s.Panic?) && (s.Ok? ==> r == Ok(s.value.1) && inputSoFar == s.value.0)
    {
      AddToInput(input);
      var action := TriggersAction(input);
      if action.Some? {
        r := DoAction(action.value, parse);
        return;
      }
      r := Ok(None);
    }

    /** The `Iterator` over a whole output: every item the lines yield, in order. */
    method ProcessLines(lines: seq<string>, parse: string -> Option<ParserItem>) returns (r: Outcome<seq<ParserItem>>)
      modifies this
      ensures var run := Run(old(inputSoFar), lines, parse);
        (r.Panic? <==> run.Panic?) && (run.Ok? ==> r == Ok(run.value.0) && inputSoFar == run.value.1)
    {
      var items: seq<ParserItem> := [];
      var i := 0;
      assert lines[0..] == lines;
      PrependNothing(Run(inputSoFar, lines, parse));
      while i < |lines|
        invariant 0 <= i <= |lines|
        invariant Run(old(inputSoFar), lines, parse) == Prepend(items, Run(inputSoFar, lines[i..], parse))
      {
        assert lines[i..][1..] == lines[i + 1..];
        ghost var before := inputSoFar;
        var next := ProcessLine(lines[i], parse);
        if next.Panic? {
          return Panic(next.error);
        }
        var yielded := if next.value.Some? then [next.value.value] else [];
        assert Run(before, lines[i..], parse) == Prepend(yielded, Run(inputSoFar, lines[i + 1..], parse));
        PrependTwice(items, yielded, Run(inputSoFar, lines[i + 1..], parse));
        items := items + yielded;
        i := i + 1;
      }
      assert lines[i..] == [];
      assert items + [] == items;
      r := Ok(items);
    }
  }
}
