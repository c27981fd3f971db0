/** `OpenTapSequenceParser.Parse`: blank content is rejected; trimmed content
    that opens with '{' or '[' is read as JSON, anything else as the
    line-oriented plain-text format.

    Turning JSON text into a tree is the reader's business: it is a
    parameter `tokenize`, which yields nothing for text that is not
    well-formed JSON.
 */
module OpenTapParser {
  import opened Wrappers
  import opened Text
  import opened DomainModels
  import opened Collections
  import opened JsonTree
  import opened OpenTapSequences
  import opened OpenTapJson

  const ContentRequiredMessage: string := "Sequence content is required."

  /** What one plain-text line means. */
  datatype Line =
    | Ignored
    | NameDirective(name: string)
    | ResourceDirective(resource: string)
    | Command(text: string)

  /** One raw line, trimmed: blank lines and '#' comments are ignored;
      "name=", "resource=" and "resource:" (in any letter case) are
      directives whose trimmed remainder is the value; every other line is a
      command. */
  function Classify(raw: string): (l: Line)
    ensures IsBlank(raw) ==> l == Ignored
    ensures l.Command? ==> l.text == Trim(raw) && !IsBlank(l.text) && l.text[0] != '#'
    ensures l.NameDirective? ==> StartsWithIgnoreCase(Trim(raw), "name=")
    ensures l.ResourceDirective? ==>
      StartsWithIgnoreCase(Trim(raw), "resource=") || StartsWithIgnoreCase(Trim(raw), "resource:")
  {
    var line := Trim(raw);
    if IsBlank(line) || StartsWith(line, "#") then
      TrimmedBlankIsEmpty(raw);
      Ignored
    else if StartsWithIgnoreCase(line, "name=") then NameDirective(Trim(line[5..]))
    else if StartsWithIgnoreCase(line, "resource=") || StartsWithIgnoreCase(line, "resource:") then
      ResourceDirective(Trim(line[9..]))
    else
      assert line[..1] == [line[0]];
      Command(line)
  }

  /** What the loop has gathered so far. */
  datatype Gathered = Gathered(name: Option<string>, resource: Option<string>, commands: seq<ScpiCommand>)

  /** One iteration of the plain-text loop. */
  function ReadLine(g: Gathered, raw: string): Gathered {
    match Classify(raw)
    case Ignored => g
    case NameDirective(n) => g.(name := Some(n))
    case ResourceDirective(r) => g.(resource := Some(r))
    case Command(t) => g.(commands := g.commands + [ScpiCommand(t)])
  }

  /** The loop over the lines, front to back. */
  function ReadLines(g: Gathered, lines: seq<string>): Gathered
    decreases |lines|
  {
    if |lines| == 0 then g else ReadLines(ReadLine(g, lines[0]), lines[1..])
  }

  /** The command a single line contributes, if any. */
  function LineCommands(raw: string): (r: seq<ScpiCommand>)
    ensures |r| <= 1 && NoneBlank(r)
  {
    match Classify(raw)
    case Command(t) => [ScpiCommand(t)]
    case _ => []
  }

  /** The value of the last name directive among `lines`. */
  function LastName(lines: seq<string>): Option<string>
    decreases |lines|
  {
    if |lines| == 0 then None
    else
      var here := Classify(lines[0]);
      LastName(lines[1..]).OrElse(if here.NameDirective? then Some(here.name) else None)
  }

  /** The value of the last resource directive among `lines`. */
  function LastResource(lines: seq<string>): Option<string>
    decreases |lines|
  {
    if |lines| == 0 then None
    else
      var here := Classify(lines[0]);
      LastResource(lines[1..]).OrElse(if here.ResourceDirective? then Some(here.resource) else None)
  }

  /** One line adds exactly its own command, if any, and changes the name
      or resource only by a directive. */
  lemma ReadLineEffect(g: Gathered, raw: string)
    ensures ReadLine(g, raw).commands == g.commands + LineCommands(raw)
    ensures ReadLine(g, raw).name == (if Classify(raw).NameDirective? then Some(Classify(raw).name) else g.name)
    ensures ReadLine(g, raw).resource == (if Classify(raw).ResourceDirective? then Some(Classify(raw).resource) else g.resource)
  {
    if !Classify(raw).Command? {
      assert g.commands + [] == g.commands;
    }
  }

  /** The loop keeps every command line, in order, after the commands
      gathered before. */
  lemma {:induction false} ReadLinesCommands(g: Gathered, lines: seq<string>)
    ensures ReadLines(g, lines).commands == g.commands + FlatMap(lines, LineCommands)
    decreases |lines|
  {
    if |lines| == 0 {
      assert g.commands + [] == g.commands;
    } else {
      var next := ReadLine(g, lines[0]);
      var here := LineCommands(lines[0]);
      var rest := FlatMap(lines[1..], LineCommands);
      ReadLineEffect(g, lines[0]);
      ReadLinesCommands(next, lines[1..]);
      assert ReadLines(g, lines) == ReadLines(next, lines[1..]);
      assert FlatMap(lines, LineCommands) == here + rest;
      AppendAssociative(g.commands, here, rest);
    }
  }

  /** Falling back in two steps is falling back to the first present of
      the three values. */
  lemma OrElseAssociative<T>(a: Option<T>, b: Option<T>, c: Option<T>)
    ensures a.OrElse(b.OrElse(c)) == a.OrElse(b).OrElse(c)
  {
  }

  /** The loop ends with the last name directive, or the name gathered
      before when there is none. */
  lemma {:induction false} ReadLinesName(g: Gathered, lines: seq<string>)
    ensures ReadLines(g, lines).name == LastName(lines).OrElse(g.name)
    decreases |lines|
  {
    if |lines| > 0 {
      var next := ReadLine(g, lines[0]);
      var here := Classify(lines[0]);
      var own := if here.NameDirective? then Some(here.name) else None;
      ReadLineEffect(g, lines[0]);
      assert next.name == own.OrElse(g.name);
      ReadLinesName(next, lines[1..]);
      assert ReadLines(g, lines) == ReadLines(next, lines[1..]);
      assert LastName(lines) == LastName(lines[1..]).OrElse(own);
      OrElseAssociative(LastName(lines[1..]), own, g.name);
    }
  }

  /** The loop ends with the last resource directive, or the resource
      gathered before when there is none. */
  lemma {:induction false} ReadLinesResource(g: Gathered, lines: seq<string>)
    ensures ReadLines(g, lines).resource == LastResource(lines).OrElse(g.resource)
    decreases |lines|
  {
    if |lines| > 0 {
      var next := ReadLine(g, lines[0]);
      var here := Classify(lines[0]);
      var own := if here.ResourceDirective? then Some(here.resource) else None;
      ReadLineEffect(g, lines[0]);
      assert next.resource == own.OrElse(g.resource);
      ReadLinesResource(next, lines[1..]);
      assert ReadLines(g, lines) == ReadLines(next, lines[1..]);
      assert LastResource(lines) == LastResource(lines[1..]).OrElse(own);
      OrElseAssociative(LastResource(lines[1..]), own, g.resource);
    }
  }

  /** No gathered command is blank. */
  lemma {:induction false} LineCommandsNotBlank(lines: seq<string>)
    ensures NoneBlank(FlatMap(lines, LineCommands))
    decreases |lines|
  {
    if |lines| > 0 {
      LineCommandsNotBlank(lines[1..]);
      NoneBlankAppend(LineCommands(lines[0]), FlatMap(lines[1..], LineCommands));
    }
  }

  /** `ParsePlainText`: the lines are the content split on '\n'. The
      sequence holds every command line in order and the last name and
      resource directives; with no command line the sequence constructor
      throws. */
  function ParsePlainText(content: string): (r: Result<OpenTapSequence>)
    ensures r.Success? <==> |PlainCommands(content)| > 0
    ensures r.Failure? ==> r.error == InvalidOperationException(NoExecutableCommandsMessage)
    ensures r.Success? ==> r.value.commands == PlainCommands(content)
    ensures r.Success? ==> NormalisedFrom(r.value.name, LastName(Split(content, {'\n'})))
    ensures r.Success? ==> NormalisedFrom(r.value.resourceAddress, LastResource(Split(content, {'\n'})))
  {
    var lines := Split(content, {'\n'});
    var gathered := Gather(lines);
    ExecutableKeepsNoneBlank(gathered.commands);
    assert |gathered.commands| > 0 ==> gathered.commands[0] in gathered.commands;
    NewSequence(gathered.name, gathered.resource, Some(gathered.commands))
  }

  /** The command lines of plain-text content, in order. */
  function PlainCommands(content: string): (r: seq<ScpiCommand>)
    ensures NoneBlank(r)
  {
    LineCommandsNotBlank(Split(content, {'\n'}));
    FlatMap(Split(content, {'\n'}), LineCommands)
  }

  /** What the loop gathers from `lines`, starting from nothing. */
  function Gather(lines: seq<string>): (g: Gathered)
    ensures g.commands == FlatMap(lines, LineCommands) && NoneBlank(g.commands)
    ensures g.name == LastName(lines) && g.resource == LastResource(lines)
  {
    var start := Gathered(None, None, []);
    ReadLinesCommands(start, lines);
    ReadLinesName(start, lines);
    ReadLinesResource(start, lines);
    LineCommandsNotBlank(lines);
    assert [] + FlatMap(lines, LineCommands) == FlatMap(lines, LineCommands);
    ReadLines(start, lines)
  }

  /** Whether trimmed content is read as JSON. */
  predicate LooksLikeJson(trimmed: string) {
    StartsWith(trimmed, "{") || StartsWith(trimmed, "[")
  }

  /** `Parse`: blank content throws `ArgumentException`; otherwise the
      trimmed content goes to the JSON reader when it opens with '{' or '['
      (text the tokenizer rejects throws `JsonException`) and to the
      plain-text reader otherwise. JSON is read as the code has it, so a
      property read on a value that is not an object throws. */
  function Parse(content: string, tokenize: string -> Option<Json>): (r: Result<OpenTapSequence>)
    ensures IsBlank(content) ==> r == Failure(ArgumentException("content", ContentRequiredMessage))
    ensures !IsBlank(content) && !LooksLikeJson(Trim(content)) ==> r == ParsePlainText(Trim(content))
    ensures !IsBlank(content) && LooksLikeJson(Trim(content)) && tokenize(Trim(content)).None? ==> r == Failure(JsonException)
    ensures !IsBlank(content) && LooksLikeJson(Trim(content)) && tokenize(Trim(content)).Some? ==>
      r == ParseJson(tokenize(Trim(content)).value, false)
    ensures r.Success? ==> r.value.Valid()
  {
    ParseWith(content, tokenize, false)
  }

  /** `Parse` with the JSON property reads guarded, so that a value that is
      not an object has no properties instead of throwing. */
  function ParseGuarded(content: string, tokenize: string -> Option<Json>): (r: Result<OpenTapSequence>)
    ensures !IsBlank(content) && LooksLikeJson(Trim(content)) && tokenize(Trim(content)).Some? ==>
      r == ParseJson(tokenize(Trim(content)).value, true)
    ensures r.Success? ==> r.value.Valid()
  {
    ParseWith(content, tokenize, true)
  }

  /** The shared body of both readings: the blank check, the routing on the
      first character, then the JSON or plain-text reader. */
  function ParseWith(content: string, tokenize: string -> Option<Json>, guarded: bool): (r: Result<OpenTapSequence>)
    ensures r.Success? ==> r.value.Valid()
  {
    if IsBlank(content) then Failure(ArgumentException("content", ContentRequiredMessage))
    else
      var trimmed := Trim(content);
      if LooksLikeJson(trimmed) then
        match tokenize(trimmed)
        case None => Failure(JsonException)
        case Some(root) => ParseJson(root, guarded)
      else ParsePlainText(trimmed)
  }

  /** The guarded reading differs from the code only where the code throws:
      whatever `Parse` returns successfully, `ParseGuarded` returns too, and
      every failure of the guarded reading is a failure of the code. */
  lemma ParseGuardedAgrees(content: string, tokenize: string -> Option<Json>)
    ensures Parse(content, tokenize).Success? ==> ParseGuarded(content, tokenize) == Parse(content, tokenize)
    ensures ParseGuarded(content, tokenize).Failure? ==> Parse(content, tokenize).Failure?
  {
    if !IsBlank(content) && LooksLikeJson(Trim(content)) && tokenize(Trim(content)).Some? {
      ParseJsonAgrees(tokenize(Trim(content)).value);
    }
  }

  /** As written, JSON content whose root is an array always throws, while
      the guarded reading takes its items' commands. */
  lemma ArrayContentThrows(content: string, tokenize: string -> Option<Json>, items: seq<Json>)
    requires !IsBlank(content) && LooksLikeJson(Trim(content)) && tokenize(Trim(content)) == Some(Array(items))
    ensures Parse(content, tokenize) == Failure(WrongKind("Object", Array(items)))
    ensures ParseGuarded(content, tokenize).Success? <==> ItemCommands(items, true).Success? && ItemCommands(items, true).value != []
  {
    ArrayRootThrows(items);
    ArrayRootCommands(items);
  }
}
