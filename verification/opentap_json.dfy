/** The JSON half of `OpenTapSequenceParser`: reading a name, a resource
    address and the SCPI commands out of a JSON document.

    Every reader takes a flag `guarded`. With `guarded == false` it follows
    the code as written, where a property read on an element that is not an
    object throws (System.Text.Json's `TryGetProperty` does). With
    `guarded == true` such a read finds nothing, as `TryGetString` already
    arranges for its own reads; this is the reading under which the source's
    string-node branch and array roots work as its structure intends.
 */
module OpenTapJson {
  import opened Wrappers
  import opened Text
  import opened DomainModels
  import opened JsonTree
  import opened OpenTapSequences

  const NoCommandsDeclaredMessage: string := "The OpenTAP sequence does not declare any SCPI commands."

  /** The value of property `key` of an object, and nothing for any other
      element. The value found is a proper part of `j`. */
  function Found(j: Json, key: string): (r: Option<Json>)
    ensures r == (if j.Object? then Lookup(j.members, key) else None)
    ensures r.Some? ==> r.value < j
  {
    if j.Object? then
      var p := Lookup(j.members, key);
      if p.Some? then
        var k :| 0 <= k < |j.members| && j.members[k].key == key && j.members[k].value == p.value;
        assert j.members[k] in j.members;
        p
      else p
    else None
  }

  /** A property read: `TryGetProperty`, or, when guarded, nothing on an
      element that is not an object. */
  function Property(j: Json, key: string, guarded: bool): (r: Result<Option<Json>>)
    ensures r.Failure? <==> !guarded && !j.Object?
    ensures r.Failure? ==> r == Failure(WrongKind("Object", j))
    ensures r.Success? ==> r.value == Found(j, key)
  {
    if guarded && !j.Object? then Success(None)
    else
      var p :- TryGetProperty(j, key);
      Success(Found(j, key))
  }

  /** `TryGetString`: a string element is its own text whatever the name
      asked for; an object gives its string-valued property; anything else,
      and a property of another kind, gives null. It never throws. */
  function TryGetString(j: Json, key: string): (r: Option<string>)
    ensures j.Str? ==> r == Some(j.s)
    ensures !j.Str? && !j.Object? ==> r.None?
    ensures j.Object? ==> (r.Some? <==> Lookup(j.members, key).Some? && Lookup(j.members, key).value.Str?)
    ensures j.Object? && r.Some? ==> r.value == Lookup(j.members, key).value.s
  {
    match j
    case Str(s) => Some(s)
    case Object(members) =>
      (match Lookup(members, key)
       case Some(Str(s)) => Some(s)
       case _ => None)
    case _ => None
  }

  /** The sequence name: the "name" string, else the "title" string. */
  function Name(root: Json): (r: Option<string>)
    ensures TryGetString(root, "name").Some? ==> r == TryGetString(root, "name")
    ensures TryGetString(root, "name").None? ==> r == TryGetString(root, "title")
  {
    TryGetString(root, "name").OrElse(TryGetString(root, "title"))
  }

  /** `TryGetResource`: the "resource" string; else, when there is an
      "instrument" property, its "resource" string, else its "address"
      string; else null. */
  function Resource(root: Json, guarded: bool): (r: Result<Option<string>>)
    ensures TryGetString(root, "resource").Some? ==> r == Success(TryGetString(root, "resource"))
    ensures TryGetString(root, "resource").None? && !root.Object? ==> (r.Failure? <==> !guarded)
    ensures r.Success? && TryGetString(root, "resource").None? && root.Object? && Lookup(root.members, "instrument").Some? ==>
      (var inst := Lookup(root.members, "instrument").value;
       r.value == TryGetString(inst, "resource").OrElse(TryGetString(inst, "address")))
    ensures r.Success? && TryGetString(root, "resource").None? && (!root.Object? || Lookup(root.members, "instrument").None?) ==>
      r.value.None?
    ensures root.Object? ==> r.Success?
  {
    var resource := TryGetString(root, "resource");
    if resource.Some? then Success(resource)
    else
      var instrument :- Property(root, "instrument", guarded);
      match instrument
      case None => Success(None)
      case Some(inst) => Success(TryGetString(inst, "resource").OrElse(TryGetString(inst, "address")))
  }

  /** The command a string contributes: itself, unless blank. */
  function TextCommands(text: string): (r: seq<ScpiCommand>)
    ensures r == [] <==> IsBlank(text)
    ensures r != [] ==> r == [ScpiCommand(text)]
    ensures NoneBlank(r)
  {
    if IsBlank(text) then [] else [ScpiCommand(text)]
  }

  /** The command an element carries itself: a string element's text, or
      an object's "text" property read with `GetString` (which throws on a
      value that is neither a string nor null). */
  function OwnCommands(j: Json): (r: Result<seq<ScpiCommand>>)
    ensures j.Str? ==> r == Success(TextCommands(j.s))
    ensures !j.Str? && !j.Object? ==> r == Success([])
    ensures r.Success? ==> NoneBlank(r.value)
  {
    if j.Str? then Success(TextCommands(j.s))
    else if j.Object? then
      match Lookup(j.members, "text")
      case None => Success([])
      case Some(node) =>
        var text :- GetString(node);
        Success(if text.None? then [] else TextCommands(text.value))
    else Success([])
  }

  /** `ExtractCommands`: an array contributes its items' commands in order;
      any other element contributes its "commands" property's commands, then
      its "steps", then its own command. Read as written, the first property
      read throws on an element that is neither an array nor an object. */
  function Commands(j: Json, guarded: bool): (r: Result<seq<ScpiCommand>>)
    ensures r.Success? ==> NoneBlank(r.value)
    decreases j
  {
    if j.Array? then ItemCommands(j.items, guarded)
    else if !guarded && !j.Object? then Failure(WrongKind("Object", j))
    else
      var commandsNode := Found(j, "commands");
      var fromCommands :- if commandsNode.Some? then Commands(commandsNode.value, guarded) else Success([]);
      var stepsNode := Found(j, "steps");
      var fromSteps :- if stepsNode.Some? then StepsCommands(stepsNode.value, guarded) else Success([]);
      var own :- OwnCommands(j);
      NoneBlankAppend(fromCommands, fromSteps);
      NoneBlankAppend(fromCommands + fromSteps, own);
      Success(fromCommands + fromSteps + own)
  }

  /** The items of an array, flattened in order; the first item that throws
      ends the extraction. */
  function ItemCommands(items: seq<Json>, guarded: bool): (r: Result<seq<ScpiCommand>>)
    ensures r.Success? ==> NoneBlank(r.value)
    decreases items
  {
    if |items| == 0 then Success([])
    else
      var first :- Commands(items[0], guarded);
      var rest :- ItemCommands(items[1..], guarded);
      NoneBlankAppend(first, rest);
      Success(first + rest)
  }

  /** A "steps" property: enumerating anything but an array throws. */
  function StepsCommands(steps: Json, guarded: bool): (r: Result<seq<ScpiCommand>>)
    ensures !steps.Array? ==> r == Failure(WrongKind("Array", steps))
    ensures r.Success? ==> NoneBlank(r.value)
    decreases steps
  {
    if steps.Array? then StepItemCommands(steps.items, guarded) else Failure(WrongKind("Array", steps))
  }

  function StepItemCommands(steps: seq<Json>, guarded: bool): (r: Result<seq<ScpiCommand>>)
    ensures r.Success? ==> NoneBlank(r.value)
    decreases steps
  {
    if |steps| == 0 then Success([])
    else
      var first :- StepCommands(steps[0], guarded);
      var rest :- StepItemCommands(steps[1..], guarded);
      NoneBlankAppend(first, rest);
      Success(first + rest)
  }

  /** One step: its non-blank "command" string if it has one, otherwise the
      commands of its "scpi" property. */
  function StepCommands(step: Json, guarded: bool): (r: Result<seq<ScpiCommand>>)
    ensures r.Success? ==> NoneBlank(r.value)
    decreases step
  {
    var command := TryGetString(step, "command");
    if command.Some? && !IsBlank(command.value) then Success(TextCommands(command.value))
    else
      var scpi :- Property(step, "scpi", guarded);
      if scpi.Some? then Commands(scpi.value, guarded) else Success([])
  }

  /** Two readings one after the other: the first one's failure if it
      throws, else the second one's, else the first one's commands followed
      by the second one's. */
  function Then(first: Result<seq<ScpiCommand>>, second: Result<seq<ScpiCommand>>): Result<seq<ScpiCommand>> {
    if first.Failure? then Failure(first.error)
    else if second.Failure? then Failure(second.error)
    else Success(first.value + second.value)
  }

  /** Reading three things in a row does not depend on how they are
      grouped. */
  lemma ThenAssociative(x: Result<seq<ScpiCommand>>, y: Result<seq<ScpiCommand>>, z: Result<seq<ScpiCommand>>)
    ensures Then(x, Then(y, z)) == Then(Then(x, y), z)
  {
    if x.Success? && y.Success? && z.Success? {
      assert x.value + (y.value + z.value) == (x.value + y.value) + z.value;
    }
  }

  /** A non-empty item list reads its first item, then the rest. */
  lemma ItemCommandsStep(items: seq<Json>, guarded: bool)
    requires |items| > 0
    ensures ItemCommands(items, guarded) == Then(Commands(items[0], guarded), ItemCommands(items[1..], guarded))
  {
  }

  /** A non-empty step list reads its first step, then the rest. */
  lemma StepItemCommandsStep(steps: seq<Json>, guarded: bool)
    requires |steps| > 0
    ensures StepItemCommands(steps, guarded) == Then(StepCommands(steps[0], guarded), StepItemCommands(steps[1..], guarded))
  {
  }

  /** The items of two lists in a row are read as the first list, then the
      second: the first list's failure if it has one, else the second's,
      else the first's commands followed by the second's. */
  lemma {:induction false} ItemCommandsAppend(a: seq<Json>, b: seq<Json>, guarded: bool)
    ensures ItemCommands(a + b, guarded) == Then(ItemCommands(a, guarded), ItemCommands(b, guarded))
    decreases |a|
  {
    if |a| == 0 {
      assert a + b == b;
      if ItemCommands(b, guarded).Success? {
        assert [] + ItemCommands(b, guarded).value == ItemCommands(b, guarded).value;
      }
    } else {
      assert (a + b)[0] == a[0];
      assert (a + b)[1..] == a[1..] + b;
      ItemCommandsStep(a + b, guarded);
      ItemCommandsStep(a, guarded);
      ItemCommandsAppend(a[1..], b, guarded);
      ThenAssociative(Commands(a[0], guarded), ItemCommands(a[1..], guarded), ItemCommands(b, guarded));
    }
  }

  /** The same for the steps of a "steps" array. */
  lemma {:induction false} StepItemCommandsAppend(a: seq<Json>, b: seq<Json>, guarded: bool)
    ensures StepItemCommands(a + b, guarded) == Then(StepItemCommands(a, guarded), StepItemCommands(b, guarded))
    decreases |a|
  {
    if |a| == 0 {
      assert a + b == b;
      if StepItemCommands(b, guarded).Success? {
        assert [] + StepItemCommands(b, guarded).value == StepItemCommands(b, guarded).value;
      }
    } else {
      assert (a + b)[0] == a[0];
      assert (a + b)[1..] == a[1..] + b;
      StepItemCommandsStep(a + b, guarded);
      StepItemCommandsStep(a, guarded);
      StepItemCommandsAppend(a[1..], b, guarded);
      ThenAssociative(StepCommands(a[0], guarded), StepItemCommands(a[1..], guarded), StepItemCommands(b, guarded));
    }
  }

  /** What one property contributes to an object's commands: nothing when
      the property is missing, else what `read` makes of its value. */
  function PartOf(j: Json, key: string, read: Json -> Result<seq<ScpiCommand>>): Result<seq<ScpiCommand>> {
    match Found(j, key)
    case None => Success([])
    case Some(node) => read(node)
  }

  /** An object's commands come in three parts, read in this order and each
      ending the reading when it throws: those under "commands", then those
      of the "steps" array, then its own "text". */
  lemma ObjectCommandsLayout(j: Json, guarded: bool)
    requires j.Object?
    ensures Commands(j, guarded) == Then(Then(PartOf(j, "commands", node => Commands(node, guarded)),
                                              PartOf(j, "steps", node => StepsCommands(node, guarded))),
                                         OwnCommands(j))
  {
  }

  /** A step with a non-blank "command" string gives that command alone,
      whatever its "scpi" property holds; any other step gives the commands
      of its "scpi" property, or nothing without one. */
  lemma StepCommandsChoice(step: Json, guarded: bool)
    ensures var command := TryGetString(step, "command");
      command.Some? && !IsBlank(command.value) ==> StepCommands(step, guarded) == Success([ScpiCommand(command.value)])
    ensures var command := TryGetString(step, "command");
      (command.None? || IsBlank(command.value)) && step.Object? ==>
      StepCommands(step, guarded) == PartOf(step, "scpi", node => Commands(node, guarded))
  {
  }

  /** `ParseJson`: the name, then the resource (which may throw), then the
      commands (which may throw); no command at all throws
      `InvalidOperationException`. The commands are kept whole and in order. */
  function ParseJson(root: Json, guarded: bool): (r: Result<OpenTapSequence>)
    ensures Resource(root, guarded).Failure? ==> r == Failure(Resource(root, guarded).error)
    ensures Resource(root, guarded).Success? && Commands(root, guarded).Failure? ==> r == Failure(Commands(root, guarded).error)
    ensures Resource(root, guarded).Success? && Commands(root, guarded).Success? && |Commands(root, guarded).value| == 0 ==>
      r == Failure(InvalidOperationException(NoCommandsDeclaredMessage))
    ensures r.Success? <==> Resource(root, guarded).Success? && Commands(root, guarded).Success? && |Commands(root, guarded).value| > 0
    ensures r.Success? ==> r.value.commands == Commands(root, guarded).value
    ensures r.Success? ==> NormalisedFrom(r.value.name, Name(root)) && NormalisedFrom(r.value.resourceAddress, Resource(root, guarded).value)
  {
    var name := Name(root);
    var resource :- Resource(root, guarded);
    var commands :- Commands(root, guarded);
    if |commands| == 0 then Failure(InvalidOperationException(NoCommandsDeclaredMessage))
    else
      ExecutableKeepsNoneBlank(commands);
      assert commands[0] in commands;
      NewSequence(name, resource, Some(commands))
  }

  /** Read as written, every string, number, boolean or null element handed
      to `ExtractCommands` throws, so a string element never becomes a
      command; guarded, a string element is its own command and the others
      contribute nothing. */
  lemma ScalarCommands(j: Json)
    requires !j.Array? && !j.Object?
    ensures Commands(j, false) == Failure(WrongKind("Object", j))
    ensures Commands(j, true) == Success(if j.Str? then TextCommands(j.s) else [])
  {
    var own: seq<ScpiCommand> := if j.Str? then TextCommands(j.s) else [];
    assert [] + [] + own == own;
  }

  /** Read as written, a document whose root is an array always throws, in
      the resource lookup. */
  lemma ArrayRootThrows(items: seq<Json>)
    ensures ParseJson(Array(items), false) == Failure(WrongKind("Object", Array(items)))
  {
  }

  /** Guarded, a document whose root is an array is a list of command
      sources: it is read exactly when its items give some command, and
      then its commands are theirs, in order. */
  lemma ArrayRootCommands(items: seq<Json>)
    ensures ParseJson(Array(items), true).Success? <==>
      ItemCommands(items, true).Success? && |ItemCommands(items, true).value| > 0
    ensures ParseJson(Array(items), true).Success? ==>
      ParseJson(Array(items), true).value.commands == ItemCommands(items, true).value
  {
  }

  /** The document {"commands": ["*RST"]}: read as written it throws on the
      string element; guarded it yields the single command *RST. */
  lemma CommandListOfStrings()
    ensures Commands(Object([Member("commands", Array([Str("*RST")]))]), false).Failure?
    ensures Commands(Object([Member("commands", Array([Str("*RST")]))]), true) == Success([ScpiCommand("*RST")])
  {
    var node := Str("*RST");
    var list := Array([node]);
    var doc := Object([Member("commands", list)]);
    var command := [ScpiCommand("*RST")];
    ScalarCommands(node);
    assert !IsBlank("*RST") by { assert "*RST"[0] == '*'; }
    assert Commands(node, true) == Success(command);
    assert ItemCommands([node], true) == Success(command) by {
      assert [node][1..] == [];
      assert command + [] == command;
    }
    assert Commands(list, true) == ItemCommands([node], true);
    assert Found(doc, "commands") == Some(list);
    assert Found(doc, "steps") == None;
    assert OwnCommands(doc) == Success([]);
    assert Commands(doc, true) == Success(command + [] + []);
  }

  /** The guarded reading only adds behaviour: wherever the code as written
      succeeds, the guarded reading gives the same commands. */
  lemma {:induction false} CommandsAgree(j: Json)
    ensures Commands(j, false).Success? ==> Commands(j, true) == Commands(j, false)
    decreases j
  {
    if j.Array? {
      ItemCommandsAgree(j.items);
    } else if j.Object? {
      var commandsNode := Found(j, "commands");
      if commandsNode.Some? {
        CommandsAgree(commandsNode.value);
      }
      var stepsNode := Found(j, "steps");
      if stepsNode.Some? {
        StepsCommandsAgree(stepsNode.value);
      }
    }
  }

  lemma {:induction false} ItemCommandsAgree(items: seq<Json>)
    ensures ItemCommands(items, false).Success? ==> ItemCommands(items, true) == ItemCommands(items, false)
    decreases items
  {
    if |items| > 0 {
      CommandsAgree(items[0]);
      ItemCommandsAgree(items[1..]);
    }
  }

  lemma {:induction false} StepsCommandsAgree(steps: Json)
    ensures StepsCommands(steps, false).Success? ==> StepsCommands(steps, true) == StepsCommands(steps, false)
    decreases steps
  {
    if steps.Array? {
      StepItemCommandsAgree(steps.items);
    }
  }

  lemma {:induction false} StepItemCommandsAgree(steps: seq<Json>)
    ensures StepItemCommands(steps, false).Success? ==> StepItemCommands(steps, true) == StepItemCommands(steps, false)
    decreases steps
  {
    if |steps| > 0 {
      StepCommandsAgree(steps[0]);
      StepItemCommandsAgree(steps[1..]);
    }
  }

  lemma {:induction false} StepCommandsAgree(step: Json)
    ensures StepCommands(step, false).Success? ==> StepCommands(step, true) == StepCommands(step, false)
    decreases step
  {
    var scpi := Found(step, "scpi");
    if scpi.Some? {
      CommandsAgree(scpi.value);
    }
  }

  /** Whole documents agree too: whatever the code as written parses, the
      guarded reading parses to the same sequence. */
  lemma ParseJsonAgrees(root: Json)
    ensures ParseJson(root, false).Success? ==> ParseJson(root, true) == ParseJson(root, false)
  {
    CommandsAgree(root);
  }
}
