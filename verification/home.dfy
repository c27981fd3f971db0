/** The page logic of the `Home` component that does not touch the browser:
    the menu bar, the alert banners, the custom command box, carrying a
    parsed configuration into the device editors, and building the upload
    request of an editor.

    The page's fields become explicit values: each handler takes the part
    of the page state it reads and returns the part it writes.
 */
module HomePage {
  import opened Wrappers
  import opened Text
  import opened Collections
  import opened Xml
  import opened DomainModels
  import P = ParameterEditors
  import D = DeviceEditors
  import U = SourceUpload

  // ----- Menus -------------------------------------------------------------

  /** The menus of the page's menu bar. */
  datatype MenuType = File | Edit | View

  /** `CloseMenus`: no menu is open afterwards, whichever was. */
  function CloseMenus(active: Option<MenuType>): (r: Option<MenuType>)
    ensures r.None?
  {
    None
  }

  /** `ToggleMenu`: clicking the open menu closes it; clicking any other
      menu opens that one in place of whichever was open. */
  function ToggleMenu(active: Option<MenuType>, menu: MenuType): (r: Option<MenuType>)
    ensures r == Some(menu) <==> active != Some(menu)
    ensures r.None? <==> active == Some(menu)
  {
    if active == Some(menu) then None else Some(menu)
  }

  /** `GetMenuToggleClass`: `active` on the open menu's toggle, nothing on
      the others. */
  function MenuToggleClass(active: Option<MenuType>, menu: MenuType): (r: string)
    ensures r == "active" <==> active == Some(menu)
    ensures r != "active" ==> r == ""
  {
    if active == Some(menu) then "active" else ""
  }

  /** Clicking a menu twice reopens it only when it was the open one; any
      other state ends with every menu closed. After closing the menus, a
      click opens the clicked menu. */
  lemma ToggleTwice(active: Option<MenuType>, menu: MenuType)
    ensures ToggleMenu(ToggleMenu(active, menu), menu) == (if active == Some(menu) then active else None)
    ensures ToggleMenu(CloseMenus(active), menu) == Some(menu)
  {
  }

  /** At most one menu toggle is highlighted, and it is the open menu's. */
  lemma OneMenuHighlighted(active: Option<MenuType>, a: MenuType, b: MenuType)
    ensures MenuToggleClass(active, a) == "active" && MenuToggleClass(active, b) == "active" ==> a == b
    ensures active.Some? ==> MenuToggleClass(active, active.value) == "active"
  {
  }

  // ----- Alerts ------------------------------------------------------------

  /** The error and success banners; `None` is a hidden banner. */
  datatype Alerts = Alerts(error: Option<string>, success: Option<string>) {
    /** The page never shows both banners at once. */
    predicate Exclusive() {
      error.None? || success.None?
    }
  }

  /** `ClearAlerts`: both banners hidden. */
  function ClearAlerts(a: Alerts): (r: Alerts)
    ensures r.error.None? && r.success.None?
  {
    Alerts(None, None)
  }

  /** `ShowError`: the error banner shows `message` and the success banner
      is hidden. */
  function ShowError(a: Alerts, message: string): (r: Alerts)
    ensures r.error == Some(message) && r.success.None?
  {
    Alerts(Some(message), None)
  }

  /** `ShowSuccess`: the success banner shows `message` and the error banner
      is hidden. */
  function ShowSuccess(a: Alerts, message: string): (r: Alerts)
    ensures r.success == Some(message) && r.error.None?
  {
    Alerts(None, Some(message))
  }

  /** The three things a handler can do to the banners. */
  datatype AlertAction = Cleared | ErrorShown(message: string) | SuccessShown(message: string)

  function Perform(a: Alerts, action: AlertAction): Alerts {
    match action
    case Cleared => ClearAlerts(a)
    case ErrorShown(message) => ShowError(a, message)
    case SuccessShown(message) => ShowSuccess(a, message)
  }

  /** The banners after a run of handlers, in order. */
  function PerformAll(a: Alerts, actions: seq<AlertAction>): Alerts
    decreases |actions|
  {
    if |actions| == 0 then a else PerformAll(Perform(a, actions[0]), actions[1..])
  }

  /** Whatever the handlers do, the page never shows both banners. */
  lemma {:induction false} AlertsStayExclusive(a: Alerts, actions: seq<AlertAction>)
    requires a.Exclusive()
    ensures PerformAll(a, actions).Exclusive()
    decreases |actions|
  {
    if |actions| > 0 {
      AlertsStayExclusive(Perform(a, actions[0]), actions[1..]);
    }
  }

  /** The banners depend only on the last action: earlier messages never
      linger. */
  lemma {:induction false} LastActionDecides(a: Alerts, b: Alerts, actions: seq<AlertAction>)
    requires |actions| > 0
    ensures PerformAll(a, actions) == PerformAll(b, actions)
    ensures PerformAll(a, actions) == Perform(a, actions[|actions| - 1])
    decreases |actions|
  {
    if |actions| > 1 {
      LastActionDecides(Perform(a, actions[0]), Perform(b, actions[0]), actions[1..]);
      assert actions[1..][|actions[1..]| - 1] == actions[|actions| - 1];
    }
  }

  // ----- Custom commands ---------------------------------------------------

  const LineBreaks: set<char> := {'\r', '\n'}
  const NoCustomCommandsMessage: string := "Provide at least one SCPI command before sending it to an instrument."
  const CustomCommandsName: string := "Custom instrument commands"

  /** One line of the custom command box: an empty line is dropped by the
      split, the rest is trimmed, and a line that trims to nothing is
      dropped. */
  function LineCommand(line: string): (r: seq<ScpiCommand>)
    ensures r == [] <==> IsBlank(line)
    ensures r != [] ==> r == [ScpiCommand(Trim(line))]
  {
    if line == [] then []
    else
      var text := Trim(line);
      TrimmedBlankIsEmpty(line);
      if IsBlank(text) then [] else [ScpiCommand(text)]
  }

  /** The commands of the lines, in order. */
  function CommandsOf(lines: seq<string>): (r: seq<ScpiCommand>)
    ensures NoneBlank(r)
    ensures forall k :: 0 <= k < |r| ==> IsTrimmed(r[k].text)
  {
    var r := FlatMap(lines, LineCommand);
    forall k | 0 <= k < |r|
      ensures !IsBlank(r[k].text) && IsTrimmed(r[k].text)
    {
      FlatMapMembers(lines, LineCommand, r[k]);
      var i :| 0 <= i < |lines| && r[k] in LineCommand(lines[i]);
      TrimmedBlankIsEmpty(lines[i]);
      TrimIsTrimmed(lines[i]);
    }
    r
  }

  /** Every non-blank line gives its trimmed text as a command. */
  lemma LinesGiveCommands(lines: seq<string>)
    ensures forall k :: 0 <= k < |lines| && !IsBlank(lines[k]) ==> ScpiCommand(Trim(lines[k])) in CommandsOf(lines)
  {
    var r := CommandsOf(lines);
    assert r == FlatMap(lines, LineCommand);
    forall k | 0 <= k < |lines| && !IsBlank(lines[k])
      ensures ScpiCommand(Trim(lines[k])) in r
    {
      FlatMapIncludes(lines, LineCommand, k, ScpiCommand(Trim(lines[k])));
    }
  }

  /** A command of the lines is the trimmed text of a non-blank line. */
  lemma CommandFromLine(lines: seq<string>, c: ScpiCommand)
    requires c in FlatMap(lines, LineCommand)
    ensures exists k :: 0 <= k < |lines| && !IsBlank(lines[k]) && c == ScpiCommand(Trim(lines[k]))
  {
    FlatMapMembers(lines, LineCommand, c);
    var i :| 0 <= i < |lines| && c in LineCommand(lines[i]);
    assert !IsBlank(lines[i]) && c == ScpiCommand(Trim(lines[i]));
  }

  /** Every command is the trimmed text of a non-blank line. */
  lemma CommandsFromLines(lines: seq<string>)
    ensures forall c <- CommandsOf(lines) :: exists k :: 0 <= k < |lines| && !IsBlank(lines[k]) && c == ScpiCommand(Trim(lines[k]))
  {
    var r := CommandsOf(lines);
    assert r == FlatMap(lines, LineCommand);
    forall c <- r
      ensures exists k :: 0 <= k < |lines| && !IsBlank(lines[k]) && c == ScpiCommand(Trim(lines[k]))
    {
      CommandFromLine(lines, c);
    }
  }

  /** No command comes out exactly when every line is blank. */
  lemma NothingIffAllBlank(lines: seq<string>)
    ensures CommandsOf(lines) == [] <==> forall k :: 0 <= k < |lines| ==> IsBlank(lines[k])
  {
    LinesGiveCommands(lines);
    var r := CommandsOf(lines);
    if r != [] {
      assert r[0] in r;
      CommandsFromLines(lines);
    }
  }

  /** A single line gives its own command, if any. */
  lemma CommandsOfOne(line: string)
    ensures CommandsOf([line]) == LineCommand(line)
  {
    assert CommandsOf([line]) == FlatMap([line], LineCommand);
    assert [line][1..] == [];
    assert FlatMap([line], LineCommand) == LineCommand(line) + FlatMap([], LineCommand);
  }

  /** The commands of the custom command box: the text, or nothing when
      there is none, split at carriage returns and line feeds. */
  function CustomCommands(text: Option<string>): (r: seq<ScpiCommand>)
    ensures NoneBlank(r)
    ensures forall k :: 0 <= k < |r| ==> IsTrimmed(r[k].text)
  {
    CommandsOf(Lines(text))
  }

  /** Lines on both sides of a break are read independently. */
  lemma CommandsOfAppend(a: seq<string>, b: seq<string>)
    ensures CommandsOf(a + b) == CommandsOf(a) + CommandsOf(b)
  {
    FlatMapAppend(a, b, LineCommand);
  }

  /** A blank line anywhere contributes nothing. */
  lemma BlankLineIgnored(a: seq<string>, blank: string, b: seq<string>)
    requires IsBlank(blank)
    ensures CommandsOf(a + [blank] + b) == CommandsOf(a + b)
  {
    CommandsOfAppend(a + [blank], b);
    CommandsOfAppend(a, [blank]);
    CommandsOfAppend(a, b);
    CommandsOfOne(blank);
  }

  /** The texts of some commands. */
  function Texts(cs: seq<ScpiCommand>): (r: seq<string>)
    ensures |r| == |cs| && forall k :: 0 <= k < |cs| ==> r[k] == cs[k].text
  {
    seq(|cs|, k requires 0 <= k < |cs| => cs[k].text)
  }

  /** Lines that are each already a clean command read back as those
      commands. */
  lemma {:induction false} CleanLinesKept(cs: seq<ScpiCommand>)
    requires forall k :: 0 <= k < |cs| ==> !IsBlank(cs[k].text) && IsTrimmed(cs[k].text)
    ensures CommandsOf(Texts(cs)) == cs
    decreases |cs|
  {
    if |cs| > 0 {
      assert Texts(cs) == [cs[0].text] + Texts(cs[1..]);
      CommandsOfAppend([cs[0].text], Texts(cs[1..]));
      TrimOfTrimmed(cs[0].text);
      CommandsOfOne(cs[0].text);
      CleanLinesKept(cs[1..]);
      assert cs == [cs[0]] + cs[1..];
    }
  }

  /** Typing trimmed, non-blank commands one per line into the box gives
      back exactly those commands. */
  lemma CustomCommandsRoundTrip(cs: seq<ScpiCommand>)
    requires |cs| >= 1
    requires forall k :: 0 <= k < |cs| ==> !IsBlank(cs[k].text) && IsTrimmed(cs[k].text)
    requires forall k, j :: 0 <= k < |cs| && 0 <= j < |cs[k].text| ==> cs[k].text[j] !in LineBreaks
    ensures CustomCommands(Some(Join(Texts(cs), '\n'))) == cs
  {
    JoinSplit(Texts(cs), '\n', LineBreaks);
    CleanLinesKept(cs);
  }

  /** What `SendCustomCommandsAsync` does: hand the commands to the
      instrument executor under a fixed name, or show an error when there
      are none. */
  datatype InstrumentCall = Run(commands: seq<ScpiCommand>, sequenceName: string) | Rejected(message: string)

  /** The lines of the custom command box. */
  function Lines(text: Option<string>): seq<string> {
    Split(text.GetOr([]), LineBreaks)
  }

  /** The box is rejected exactly when every line is blank; otherwise its
      commands are sent under a fixed name. */
  function SendCustomCommands(text: Option<string>): (r: InstrumentCall)
    ensures var lines := Lines(text);
      r.Rejected? <==> forall k :: 0 <= k < |lines| ==> IsBlank(lines[k])
    ensures r.Rejected? ==> r.message == NoCustomCommandsMessage
    ensures r.Run? ==> r.commands == CustomCommands(text) && |r.commands| > 0 && r.sequenceName == CustomCommandsName
  {
    var lines := Lines(text);
    var commands := CommandsOf(lines);
    NothingIffAllBlank(lines);
    if |commands| == 0 then Rejected(NoCustomCommandsMessage) else Run(commands, CustomCommandsName)
  }

  // ----- Applying a configuration to the editors --------------------------

  /** The page's device editors and the selected one. The page holds the
      selection by reference; editors are only ever appended and are updated
      in place, so the selection is modelled by position. */
  datatype EditorList = EditorList(editors: seq<D.DeviceEditor>, selected: Option<nat>) {
    predicate Valid() {
      selected.Some? ==> selected.value < |editors|
    }
  }

  /** `editor.Represents(device)` holds: the device's name denotes the
      editor's. */
  predicate Represents(e: D.DeviceEditor, d: DeviceConfiguration, trimmed: bool) {
    D.NameMatches(d.name, e.name, trimmed)
  }

  /** `Represents` is what the editor answers; it cannot throw on a device
      of the configuration. */
  lemma RepresentsAsAnswered(e: D.DeviceEditor, d: DeviceConfiguration, trimmed: bool)
    ensures D.Represents(e, Some(d), trimmed) == Success(Represents(e, d, trimmed))
  {
  }

  /** `devices.FirstOrDefault(editor.Represents)`. */
  function MatchFor(devices: seq<DeviceConfiguration>, e: D.DeviceEditor, trimmed: bool): (r: Option<DeviceConfiguration>)
    ensures r.None? <==> forall k :: 0 <= k < |devices| ==> !Represents(e, devices[k], trimmed)
    ensures r.Some? ==> exists k :: (0 <= k < |devices| && devices[k] == r.value && Represents(e, devices[k], trimmed) &&
      (forall j :: 0 <= j < k ==> !Represents(e, devices[j], trimmed)))
  {
    var i := FirstRepresenting(devices, e, trimmed);
    if i == |devices| then None else Some(devices[i])
  }

  /** No device before position `i + 1` represents the editor when the
      first does not and none of the rest before position `i` does. */
  lemma NoneRepresentingBefore(devices: seq<DeviceConfiguration>, e: D.DeviceEditor, trimmed: bool, i: nat)
    requires 0 < |devices| && i < |devices| && !Represents(e, devices[0], trimmed)
    requires forall j :: 0 <= j < i ==> !Represents(e, devices[1..][j], trimmed)
    ensures forall j :: 0 <= j < i + 1 ==> !Represents(e, devices[j], trimmed)
  {
    forall j | 0 < j < i + 1
      ensures !Represents(e, devices[j], trimmed)
    {
      assert devices[j] == devices[1..][j - 1];
    }
  }

  /** The position of the first device that represents the editor, or the
      length when there is none. */
  function FirstRepresenting(devices: seq<DeviceConfiguration>, e: D.DeviceEditor, trimmed: bool): (i: nat)
    ensures i <= |devices|
    ensures forall j :: 0 <= j < i ==> !Represents(e, devices[j], trimmed)
    ensures i < |devices| ==> Represents(e, devices[i], trimmed)
    decreases |devices|
  {
    if |devices| == 0 then 0
    else if Represents(e, devices[0], trimmed) then 0
    else
      var rest := devices[1..];
      var i := FirstRepresenting(rest, e, trimmed);
      NoneRepresentingBefore(devices, e, trimmed, i);
      1 + i
  }

  /** Whether a device represents an editor depends on the editor's name
      alone. */
  lemma RepresentsByName(e: D.DeviceEditor, f: D.DeviceEditor, d: DeviceConfiguration, trimmed: bool)
    requires e.name == f.name
    ensures Represents(e, d, trimmed) <==> Represents(f, d, trimmed)
  {
  }

  /** One editor of the first loop: applied to the first device it
      represents, or reset when there is none. */
  function ApplyTo(e: D.DeviceEditor, devices: seq<DeviceConfiguration>, trimmed: bool): (r: Applied<D.DeviceEditor>)
    ensures r.state.name == e.name
  {
    D.Apply(e, MatchFor(devices, e, trimmed), trimmed)
  }

  /** The first loop: every editor in turn is applied to the first device
      it represents; an exception stops the loop as `UpdateEach` describes.
      Applying never renames an editor. */
  function ApplyEach(editors: seq<D.DeviceEditor>, devices: seq<DeviceConfiguration>, trimmed: bool): (r: Applied<seq<D.DeviceEditor>>)
    ensures |r.state| == |editors|
    ensures forall k :: 0 <= k < |editors| ==> r.state[k].name == editors[k].name
    ensures forall k :: 0 <= k < |editors| ==> r.state[k] in {editors[k], ApplyTo(editors[k], devices, trimmed).state}
    ensures r.failure.None? ==> forall k :: 0 <= k < |editors| ==> r.state[k] == ApplyTo(editors[k], devices, trimmed).state
    ensures r.failure.None? <==> forall k :: 0 <= k < |editors| ==> ApplyTo(editors[k], devices, trimmed).failure.None?
  {
    var step := (e: D.DeviceEditor) => ApplyTo(e, devices, trimmed);
    UpdateEachOutcome(editors, step);
    UpdateEach(editors, step)
  }

  /** Some editor of `editors` represents `d`. */
  predicate AnyRepresents(editors: seq<D.DeviceEditor>, d: DeviceConfiguration, trimmed: bool) {
    exists j :: 0 <= j < |editors| && Represents(editors[j], d, trimmed)
  }

  /** The editor built for a device the page does not show yet. */
  function Created(d: DeviceConfiguration, trimmed: bool): (r: Result<D.DeviceEditor>)
    ensures r.Success? && trimmed ==> Represents(r.value, d, trimmed)
  {
    var r := D.FromConfiguration(Some(d), trimmed);
    if r.Success? && trimmed then
      D.FromConfigurationRepresents(d);
      r
    else r
  }

  /** `DeviceEditorViewModel.FromConfiguration`, as the second loop calls
      it. */
  function Creator(trimmed: bool): DeviceConfiguration -> Result<D.DeviceEditor> {
    d => Created(d, trimmed)
  }

  /** Every editor `create` builds represents the device it was built
      from. */
  ghost predicate BuildsRepresented(create: DeviceConfiguration -> Result<D.DeviceEditor>) {
    forall d :: create(d).Success? ==> Represents(create(d).value, d, true)
  }

  /** The second loop that no editor represents, counting
      the editors added so far, gets a new editor built from it, appended in
      order. An exception stops the loop, keeping the editors added before
      it. */
  function AddUnrepresented(editors: seq<D.DeviceEditor>, devices: seq<DeviceConfiguration>, trimmed: bool,
                            create: DeviceConfiguration -> Result<D.DeviceEditor>): (r: Applied<seq<D.DeviceEditor>>)
    ensures |editors| <= |r.state| <= |editors| + |devices|
    ensures forall k :: 0 <= k < |editors| ==> r.state[k] == editors[k]
    decreases |devices|
  {
    if |devices| == 0 then Applied(editors, None)
    else if AnyRepresents(editors, devices[0], trimmed) then AddUnrepresented(editors, devices[1..], trimmed, create)
    else
      match create(devices[0])
      case Failure(error) => Applied(editors, Some(error))
      case Success(editor) =>
        var r := AddUnrepresented(editors + [editor], devices[1..], trimmed, create);
        assert forall k :: 0 <= k < |editors| ==> (editors + [editor])[k] == editors[k];
        r
  }

  /** `SelectedDevice ??= DeviceEditors.FirstOrDefault()`. */
  function SelectFirstIfNone(selected: Option<nat>, editors: seq<D.DeviceEditor>): (r: Option<nat>)
    ensures selected.Some? ==> r == selected
    ensures selected.None? ==> (r.None? <==> |editors| == 0) && (r.Some? ==> r.value == 0)
  {
    if selected.Some? then selected else if |editors| == 0 then None else Some(0)
  }

  /** `ApplyConfigurationToEditors`: a missing configuration throws before
      anything changes; otherwise the existing editors are applied, the
      devices no editor represents are added, and the first editor is
      selected when none was. The editors already on the page keep their
      places and names whatever happens. */
  function ApplyConfigurationToEditors(page: EditorList, configuration: Option<HardwareConfiguration>, trimmed: bool): (r: Applied<EditorList>)
    ensures configuration.None? ==> r == Applied(page, Some(ArgumentNullException("configuration")))
    ensures |page.editors| <= |r.state.editors|
    ensures forall k :: 0 <= k < |page.editors| ==> r.state.editors[k].name == page.editors[k].name
    ensures configuration.Some? && r.failure.None? ==> forall k :: 0 <= k < |page.editors| ==>
      r.state.editors[k] == ApplyTo(page.editors[k], configuration.value.devices, trimmed).state
    ensures r.failure.None? ==> r.state.selected == SelectFirstIfNone(page.selected, r.state.editors)
    ensures r.failure.Some? ==> r.state.selected == page.selected
    ensures page.Valid() ==> r.state.Valid()
  {
    match configuration
    case None => Applied(page, Some(ArgumentNullException("configuration")))
    case Some(c) =>
      var existing := ApplyEach(page.editors, c.devices, trimmed);
      if existing.failure.Some? then Applied(EditorList(existing.state, page.selected), existing.failure)
      else
        var added := AddUnrepresented(existing.state, c.devices, trimmed, Creator(trimmed));
        assert forall k :: 0 <= k < |page.editors| ==> added.state[k] == existing.state[k];
        if added.failure.Some? then Applied(EditorList(added.state, page.selected), added.failure)
        else Applied(EditorList(added.state, SelectFirstIfNone(page.selected, added.state)), None)
  }

  /** Editors that keep their names keep representing the same devices. */
  lemma AnyRepresentsByNames(editors: seq<D.DeviceEditor>, renamed: seq<D.DeviceEditor>, d: DeviceConfiguration, trimmed: bool)
    requires |editors| <= |renamed| && forall k :: 0 <= k < |editors| ==> renamed[k].name == editors[k].name
    requires AnyRepresents(editors, d, trimmed)
    ensures AnyRepresents(renamed, d, trimmed)
  {
    var j :| 0 <= j < |editors| && Represents(editors[j], d, trimmed);
    assert Represents(renamed[j], d, trimmed);
  }

  /** One step of the second loop: a represented device is skipped, an
      unrepresented one gets the editor built for it appended, and a failed
      build stops the loop. */
  lemma AddUnrepresentedStep(editors: seq<D.DeviceEditor>, devices: seq<DeviceConfiguration>, trimmed: bool,
                             create: DeviceConfiguration -> Result<D.DeviceEditor>)
    requires |devices| > 0
    ensures AnyRepresents(editors, devices[0], trimmed) ==>
      AddUnrepresented(editors, devices, trimmed, create) == AddUnrepresented(editors, devices[1..], trimmed, create)
    ensures !AnyRepresents(editors, devices[0], trimmed) && create(devices[0]).Success? ==>
      AddUnrepresented(editors, devices, trimmed, create) == AddUnrepresented(editors + [create(devices[0]).value], devices[1..], trimmed, create)
    ensures !AnyRepresents(editors, devices[0], trimmed) && create(devices[0]).Failure? ==>
      AddUnrepresented(editors, devices, trimmed, create).failure.Some?
  {
  }

  /** A device list is covered when its head and its tail are. */
  lemma CoveredByParts(state: seq<D.DeviceEditor>, devices: seq<DeviceConfiguration>)
    requires |devices| > 0 && AnyRepresents(state, devices[0], true)
    requires forall k :: 0 <= k < |devices[1..]| ==> AnyRepresents(state, devices[1..][k], true)
    ensures forall k :: 0 <= k < |devices| ==> AnyRepresents(state, devices[k], true)
  {
    forall k | 0 < k < |devices|
      ensures AnyRepresents(state, devices[k], true)
    {
      assert devices[k] == devices[1..][k - 1];
    }
  }

  /** With the configuration's names trimmed, once the second loop has run
      without an exception every device is represented by some editor. */
  lemma {:induction false} AddUnrepresentedCovers(editors: seq<D.DeviceEditor>, devices: seq<DeviceConfiguration>,
                                                 create: DeviceConfiguration -> Result<D.DeviceEditor>)
    requires BuildsRepresented(create)
    requires AddUnrepresented(editors, devices, true, create).failure.None?
    ensures forall k :: 0 <= k < |devices| ==> AnyRepresents(AddUnrepresented(editors, devices, true, create).state, devices[k], true)
    decreases |devices|
  {
    if |devices| > 0 {
      var r := AddUnrepresented(editors, devices, true, create);
      var d := devices[0];
      var rest := devices[1..];
      AddUnrepresentedStep(editors, devices, true, create);
      if AnyRepresents(editors, d, true) {
        AddUnrepresentedCovers(editors, rest, create);
        AnyRepresentsByNames(editors, r.state, d, true);
      } else {
        var editor := create(d).value;
        AddUnrepresentedCovers(editors + [editor], rest, create);
        assert r.state[|editors|] == (editors + [editor])[|editors|];
        assert Represents(editor, d, true);
      }
      CoveredByParts(r.state, devices);
    }
  }

  /** When every device is already represented, the second loop adds
      nothing and cannot throw. */
  lemma {:induction false} AddUnrepresentedNothingWhenCovered(editors: seq<D.DeviceEditor>, devices: seq<DeviceConfiguration>, trimmed: bool,
                                                             create: DeviceConfiguration -> Result<D.DeviceEditor>)
    requires forall k :: 0 <= k < |devices| ==> AnyRepresents(editors, devices[k], trimmed)
    ensures AddUnrepresented(editors, devices, trimmed, create) == Applied(editors, None)
    decreases |devices|
  {
    if |devices| > 0 {
      assert forall i :: 0 < i < |devices| ==> devices[i] == devices[1..][i - 1];
      AddUnrepresentedNothingWhenCovered(editors, devices[1..], trimmed, create);
    }
  }

  /** Editor `k` of `editors` is the one built from `d`, and no editor
      before it represents `d`. */
  predicate BuiltFor(editors: seq<D.DeviceEditor>, k: nat, d: DeviceConfiguration, trimmed: bool,
                     create: DeviceConfiguration -> Result<D.DeviceEditor>)
    requires k < |editors|
  {
    create(d) == Success(editors[k]) && !AnyRepresents(editors[..k], d, trimmed)
  }

  /** Editor `k` of `editors` is built from some device of `devices` that
      no editor before it represents. */
  predicate BuiltFromSome(editors: seq<D.DeviceEditor>, k: nat, devices: seq<DeviceConfiguration>, trimmed: bool,
                          create: DeviceConfiguration -> Result<D.DeviceEditor>)
    requires k < |editors|
  {
    exists i :: 0 <= i < |devices| && BuiltFor(editors, k, devices[i], trimmed, create)
  }

  /** A device of the tail is a device of the whole list. */
  lemma BuiltFromTail(editors: seq<D.DeviceEditor>, k: nat, devices: seq<DeviceConfiguration>, trimmed: bool,
                      create: DeviceConfiguration -> Result<D.DeviceEditor>)
    requires k < |editors| && |devices| > 0 && BuiltFromSome(editors, k, devices[1..], trimmed, create)
    ensures BuiltFromSome(editors, k, devices, trimmed, create)
  {
    var i :| 0 <= i < |devices[1..]| && BuiltFor(editors, k, devices[1..][i], trimmed, create);
    assert devices[1..][i] == devices[i + 1];
  }

  /** Every editor the second loop adds is the one built from some device of
      the configuration that none of the editors before it represents: no
      device is added twice. */
  lemma {:induction false} AddedFromDevices(editors: seq<D.DeviceEditor>, devices: seq<DeviceConfiguration>, trimmed: bool,
                                           create: DeviceConfiguration -> Result<D.DeviceEditor>)
    ensures var r := AddUnrepresented(editors, devices, trimmed, create);
      forall k :: |editors| <= k < |r.state| ==> BuiltFromSome(r.state, k, devices, trimmed, create)
    decreases |devices|
  {
    if |devices| > 0 {
      var r := AddUnrepresented(editors, devices, trimmed, create);
      if AnyRepresents(editors, devices[0], trimmed) {
        AddedFromDevices(editors, devices[1..], trimmed, create);
        assert r == AddUnrepresented(editors, devices[1..], trimmed, create);
        forall k | |editors| <= k < |r.state|
          ensures BuiltFromSome(r.state, k, devices, trimmed, create)
        {
          BuiltFromTail(r.state, k, devices, trimmed, create);
        }
      } else if create(devices[0]).Success? {
        var editor := create(devices[0]).value;
        AddedFromDevices(editors + [editor], devices[1..], trimmed, create);
        assert r == AddUnrepresented(editors + [editor], devices[1..], trimmed, create);
        forall k | |editors| <= k < |r.state|
          ensures BuiltFromSome(r.state, k, devices, trimmed, create)
        {
          if k == |editors| {
            assert r.state[k] == (editors + [editor])[k];
            assert r.state[..k] == editors;
            assert BuiltFor(r.state, k, devices[0], trimmed, create);
          } else {
            BuiltFromTail(r.state, k, devices, trimmed, create);
          }
        }
      }
    }
  }

  /** The page's constructor of new editors builds, with the configuration's
      names trimmed, editors that represent their devices. */
  lemma CreatorRepresents()
    ensures BuildsRepresented(Creator(true))
  {
    forall d | Creator(true)(d).Success?
      ensures Represents(Creator(true)(d).value, d, true)
    {
      assert Creator(true)(d) == Created(d, true);
    }
  }

  /** With the configuration's names trimmed, after a successful application
      every device of the configuration is represented by some editor. */
  lemma ApplyConfigurationCovers(page: EditorList, c: HardwareConfiguration)
    requires ApplyConfigurationToEditors(page, Some(c), true).failure.None?
    ensures forall k :: 0 <= k < |c.devices| ==>
      AnyRepresents(ApplyConfigurationToEditors(page, Some(c), true).state.editors, c.devices[k], true)
  {
    var existing := ApplyEach(page.editors, c.devices, true);
    CreatorRepresents();
    AddUnrepresentedCovers(existing.state, c.devices, Creator(true));
  }

  lemma EditorsAfterApplication(page: EditorList, c: HardwareConfiguration, trimmed: bool)
    ensures var existing := ApplyEach(page.editors, c.devices, trimmed);
      ApplyConfigurationToEditors(page, Some(c), trimmed).state.editors ==
        if existing.failure.Some? then existing.state else AddUnrepresented(existing.state, c.devices, trimmed, Creator(trimmed)).state
  {
  }

  lemma AddedAfter(editors: seq<D.DeviceEditor>, page: seq<D.DeviceEditor>, added: seq<D.DeviceEditor>, c: HardwareConfiguration, trimmed: bool)
    requires |page| == |editors|
    requires added == AddUnrepresented(editors, c.devices, trimmed, Creator(trimmed)).state
    ensures forall k :: |page| <= k < |added| ==> BuiltFromSome(added, k, c.devices, trimmed, Creator(trimmed))
  {
    AddedFromDevices(editors, c.devices, trimmed, Creator(trimmed));
  }

  /** The first loop keeps every editor's invariant: each editor is either
      left as it was or applied, and applying keeps the invariant. */
  lemma ApplyEachKeepsValid(editors: seq<D.DeviceEditor>, devices: seq<DeviceConfiguration>, trimmed: bool)
    requires forall k :: 0 <= k < |editors| ==> editors[k].Valid()
    ensures var r := ApplyEach(editors, devices, trimmed).state;
      forall k :: 0 <= k < |r| ==> r[k].Valid()
  {
    forall k | 0 <= k < |editors|
      ensures ApplyTo(editors[k], devices, trimmed).state.Valid()
    {
      D.ApplyKeepsValid(editors[k], MatchFor(devices, editors[k], trimmed), trimmed);
    }
  }

  /** Every editor the page's constructor builds holds the invariant. */
  lemma CreatorBuildsValid(trimmed: bool)
    ensures forall d :: Creator(trimmed)(d).Success? ==> Creator(trimmed)(d).value.Valid()
  {
    forall d | Creator(trimmed)(d).Success?
      ensures Creator(trimmed)(d).value.Valid()
    {
      CreatorBuilds(d, trimmed);
      D.FromConfigurationIsValid(d, trimmed);
    }
  }

  /** The second loop keeps every editor's invariant when `create` builds
      only editors that hold it: the editors it keeps are unchanged and the
      ones it appends are built by `create`. */
  lemma {:induction false} AddUnrepresentedKeepsValid(editors: seq<D.DeviceEditor>, devices: seq<DeviceConfiguration>, trimmed: bool,
                                                     create: DeviceConfiguration -> Result<D.DeviceEditor>)
    requires forall k :: 0 <= k < |editors| ==> editors[k].Valid()
    requires forall d :: create(d).Success? ==> create(d).value.Valid()
    ensures var r := AddUnrepresented(editors, devices, trimmed, create).state;
      forall k :: 0 <= k < |r| ==> r[k].Valid()
    decreases |devices|
  {
    var r := AddUnrepresented(editors, devices, trimmed, create);
    if |devices| == 0 {
      assert r.state == editors;
    } else {
      AddUnrepresentedStep(editors, devices, trimmed, create);
      if AnyRepresents(editors, devices[0], trimmed) {
        AddUnrepresentedKeepsValid(editors, devices[1..], trimmed, create);
      } else if create(devices[0]).Success? {
        var more := editors + [create(devices[0]).value];
        assert forall k :: 0 <= k < |more| ==> more[k].Valid();
        AddUnrepresentedKeepsValid(more, devices[1..], trimmed, create);
      } else {
        assert r.state == editors;
      }
    }
  }

  /** Applying a configuration keeps every editor's invariant, whether it
      succeeds or stops at an exception: the editors on the page after it
      are all as the constructors build them. */
  lemma ApplyConfigurationKeepsEditorsValid(page: EditorList, configuration: Option<HardwareConfiguration>, trimmed: bool)
    requires forall k :: 0 <= k < |page.editors| ==> page.editors[k].Valid()
    ensures var r := ApplyConfigurationToEditors(page, configuration, trimmed).state.editors;
      forall k :: 0 <= k < |r| ==> r[k].Valid()
  {
    if configuration.Some? {
      var c := configuration.value;
      var existing := ApplyEach(page.editors, c.devices, trimmed);
      EditorsAfterApplication(page, c, trimmed);
      ApplyEachKeepsValid(page.editors, c.devices, trimmed);
      if existing.failure.None? {
        CreatorBuildsValid(trimmed);
        AddUnrepresentedKeepsValid(existing.state, c.devices, trimmed, Creator(trimmed));
      }
    }
  }

  /** The editors an application appends are built from devices of the
      configuration, each from a device no editor before it represents. */
  lemma ApplyConfigurationAddsFromDevices(page: EditorList, c: HardwareConfiguration, trimmed: bool)
    ensures var r := ApplyConfigurationToEditors(page, Some(c), trimmed).state.editors;
      forall k :: |page.editors| <= k < |r| ==> BuiltFromSome(r, k, c.devices, trimmed, Creator(trimmed))
  {
    var existing := ApplyEach(page.editors, c.devices, trimmed);
    EditorsAfterApplication(page, c, trimmed);
    if existing.failure.None? {
      AddedAfter(existing.state, page.editors, ApplyConfigurationToEditors(page, Some(c), trimmed).state.editors, c, trimmed);
    }
  }

  /** With the configuration's names trimmed, applying the same
      configuration again adds no editor: the second application finds
      every device already represented. */
  lemma ReapplyAddsNoEditors(page: EditorList, c: HardwareConfiguration)
    requires ApplyConfigurationToEditors(page, Some(c), true).failure.None?
    ensures var once := ApplyConfigurationToEditors(page, Some(c), true).state;
      |ApplyConfigurationToEditors(once, Some(c), true).state.editors| == |once.editors|
  {
    var once := ApplyConfigurationToEditors(page, Some(c), true).state;
    ApplyConfigurationCovers(page, c);
    var existing := ApplyEach(once.editors, c.devices, true);
    if existing.failure.None? {
      forall k | 0 <= k < |c.devices|
        ensures AnyRepresents(existing.state, c.devices[k], true)
      {
        AnyRepresentsByNames(once.editors, existing.state, c.devices[k], true);
      }
      AddUnrepresentedNothingWhenCovered(existing.state, c.devices, true, Creator(true));
    }
  }

  /** One device that no editor represents gets one new editor. */
  lemma AddUnrepresentedOne(editors: seq<D.DeviceEditor>, d: DeviceConfiguration, trimmed: bool,
                            create: DeviceConfiguration -> Result<D.DeviceEditor>)
    requires !AnyRepresents(editors, d, trimmed) && create(d).Success?
    ensures AddUnrepresented(editors, [d], trimmed, create) == Applied(editors + [create(d).value], None)
  {
    assert [d][1..] == [];
  }

  /** The page builds new editors with `DeviceEditorViewModel.FromConfiguration`. */
  lemma CreatorBuilds(d: DeviceConfiguration, trimmed: bool)
    ensures Creator(trimmed)(d) == D.FromConfiguration(Some(d), trimmed)
  {
  }

  /** A configuration of one device that no editor represents, once the
      existing editors are applied, adds exactly one editor: the one built
      from the device. */
  lemma OneUnrepresentedDeviceAdded(page: EditorList, d: DeviceConfiguration, trimmed: bool)
    requires ApplyEach(page.editors, [d], trimmed).failure.None?
    requires !AnyRepresents(ApplyEach(page.editors, [d], trimmed).state, d, trimmed)
    requires Creator(trimmed)(d).Success?
    ensures var r := ApplyConfigurationToEditors(page, Some(HardwareConfiguration([d])), trimmed);
      && r.failure.None? && |r.state.editors| == |page.editors| + 1
      && r.state.editors[|page.editors|] == Creator(trimmed)(d).value
  {
    var existing := ApplyEach(page.editors, [d], trimmed);
    AddUnrepresentedOne(existing.state, d, trimmed, Creator(trimmed));
  }

  /** On an empty page, a configuration of one device gives the editor
      built from it. */
  lemma FirstApplicationBuilds(d: DeviceConfiguration, e: D.DeviceEditor, trimmed: bool)
    requires Creator(trimmed)(d) == Success(e)
    ensures var once := ApplyConfigurationToEditors(EditorList([], None), Some(HardwareConfiguration([d])), trimmed);
      once.failure.None? && once.state.editors == [e]
  {
    assert !AnyRepresents(ApplyEach([], [d], trimmed).state, d, trimmed);
    OneUnrepresentedDeviceAdded(EditorList([], None), d, trimmed);
  }

  /** An editor that no device represents is reset to its defaults, which
      cannot throw. */
  lemma UnmatchedEditorResets(e: D.DeviceEditor, devices: seq<DeviceConfiguration>, trimmed: bool)
    requires forall k :: 0 <= k < |devices| ==> !Represents(e, devices[k], trimmed)
    ensures ApplyTo(e, devices, trimmed) == Applied(D.ResetToDefaults(e), None)
  {
  }

  /** A single editor that does not represent a device leaves it
      unrepresented. */
  lemma OnlyEditorNotRepresenting(editors: seq<D.DeviceEditor>, d: DeviceConfiguration, trimmed: bool)
    requires |editors| == 1 && !Represents(editors[0], d, trimmed)
    ensures !AnyRepresents(editors, d, trimmed)
  {
  }

  /** A page whose only editor does not represent the configuration's only
      device gets a second editor. */
  lemma SecondApplicationAdds(page: EditorList, d: DeviceConfiguration, trimmed: bool)
    requires |page.editors| == 1 && !Represents(page.editors[0], d, trimmed)
    requires Creator(trimmed)(d).Success?
    ensures |ApplyConfigurationToEditors(page, Some(HardwareConfiguration([d])), trimmed).state.editors| == 2
  {
    UnmatchedEditorResets(page.editors[0], [d], trimmed);
    var existing := ApplyEach(page.editors, [d], trimmed);
    RepresentsByName(page.editors[0], existing.state[0], d, trimmed);
    OnlyEditorNotRepresenting(existing.state, d, trimmed);
    OneUnrepresentedDeviceAdded(page, d, trimmed);
  }

  /** A device that the editor built from it does not represent is added
      again by the second application of the same configuration. */
  lemma UnrepresentedDeviceAddedAgain(d: DeviceConfiguration, e: D.DeviceEditor, trimmed: bool)
    requires Creator(trimmed)(d) == Success(e) && !Represents(e, d, trimmed)
    ensures var once := ApplyConfigurationToEditors(EditorList([], None), Some(HardwareConfiguration([d])), trimmed);
      && once.failure.None? && |once.state.editors| == 1
      && |ApplyConfigurationToEditors(once.state, Some(HardwareConfiguration([d])), trimmed).state.editors| == 2
  {
    FirstApplicationBuilds(d, e, trimmed);
    var once := ApplyConfigurationToEditors(EditorList([], None), Some(HardwareConfiguration([d])), trimmed);
    SecondApplicationAdds(once.state, d, trimmed);
  }

  /** As written, with the configuration's names untrimmed, a device whose
      name has surrounding whitespace is added again on every application:
      the editor built from it carries the trimmed name, which the padded
      name does not denote. */
  lemma PaddedDeviceAddedAgain(d: DeviceConfiguration)
    requires Trim(d.name) != d.name && D.FromConfiguration(Some(d), false).Success?
    ensures var once := ApplyConfigurationToEditors(EditorList([], None), Some(HardwareConfiguration([d])), false);
      && once.failure.None? && |once.state.editors| == 1
      && |ApplyConfigurationToEditors(once.state, Some(HardwareConfiguration([d])), false).state.editors| == 2
  {
    CreatorBuilds(d, false);
    var editor := D.FromConfiguration(Some(d), false).value;
    D.UntrimmedNameNotRepresented(d);
    RepresentsAsAnswered(editor, d, false);
    UnrepresentedDeviceAddedAgain(d, editor, false);
  }

  // Uploading sources

  const NoSourcesMessage: string := "No sources are available to upload."
  const UploadFailedMessage: string := "An error occurred while uploading the source settings."

  /** One parameter's entry in an upload request: present when its effective
      value is not blank, carrying the name and that value. */
  function UploadEntry(p: P.ParameterEditor): (r: seq<U.SourceUploadParameter>)
    ensures r == [] <==> IsBlank(P.ValueOrDefault(p))
    ensures |r| <= 1
    ensures r != [] ==> r[0].name == p.name && r[0].value == Some(P.ValueOrDefault(p))
  {
    var value := P.ValueOrDefault(p);
    if IsBlank(value) then [] else [U.SourceUploadParameter(p.name, Some(value))]
  }

  /** The upload entries of all parameter editors, in order. */
  function UploadParameters(ps: seq<P.ParameterEditor>): seq<U.SourceUploadParameter> {
    FlatMap(ps, UploadEntry)
  }

  /** Every entry comes from some parameter editor and carries its name and
      its non-blank effective value. */
  lemma UploadParametersFrom(ps: seq<P.ParameterEditor>, q: U.SourceUploadParameter)
    requires q in UploadParameters(ps)
    ensures exists i :: 0 <= i < |ps| && q.name == ps[i].name && q.value == Some(P.ValueOrDefault(ps[i]))
    ensures q.value.Some? && !IsBlank(q.value.value)
  {
    FlatMapMembers(ps, UploadEntry, q);
  }

  /** Every parameter editor with a non-blank effective value has its entry. */
  lemma UploadParametersInclude(ps: seq<P.ParameterEditor>, i: nat)
    requires i < |ps| && !IsBlank(P.ValueOrDefault(ps[i]))
    ensures U.SourceUploadParameter(ps[i].name, Some(P.ValueOrDefault(ps[i]))) in UploadParameters(ps)
  {
    FlatMapIncludes(ps, UploadEntry, i, U.SourceUploadParameter(ps[i].name, Some(P.ValueOrDefault(ps[i]))));
  }

  /** `BuildUploadRequest`: the editor's name, its effective source,
      frequency, power and mode (absent when blank), and the parameters whose
      effective value is not blank. An editor built by the constructor gives
      a request that passes the upload validation. */
  function BuildUploadRequest(e: D.DeviceEditor): (r: U.SourceUploadRequest)
    ensures r.name == e.name
    ensures r.source == D.CurrentOrDefault(Some(e.source), e.defaultSource)
    ensures r.frequency == D.CurrentOrDefault(Some(e.frequency), e.defaultFrequency)
    ensures r.power == D.CurrentOrDefault(Some(e.power), e.defaultPower)
    ensures r.mode == D.CurrentOrDefault(Some(e.mode), e.defaultMode)
    ensures forall q <- r.parameters :: q.value.Some? && !IsBlank(q.value.value)
    ensures e.Valid() ==> U.RequestError(r).None?
  {
    var r := U.SourceUploadRequest(
      e.name,
      D.CurrentOrDefault(Some(e.source), e.defaultSource),
      D.CurrentOrDefault(Some(e.frequency), e.defaultFrequency),
      D.CurrentOrDefault(Some(e.power), e.defaultPower),
      D.CurrentOrDefault(Some(e.mode), e.defaultMode),
      UploadParameters(e.parameters));
    forall q <- r.parameters
      ensures q.value.Some? && !IsBlank(q.value.value)
      ensures e.Valid() ==> !IsBlank(q.name)
    {
      UploadParametersFrom(e.parameters, q);
    }
    r
  }

  /** An upload entry and a `<Parameter>` element say the same thing: the
      element's name and value attributes are the entry's name and value. */
  predicate Corresponds(q: U.SourceUploadParameter, x: Element) {
    AttributeValue(x.attributes, NameAttribute) == Some(q.name) && AttributeValue(x.attributes, ValueAttribute) == q.value
  }

  predicate AllCorrespond(qs: seq<U.SourceUploadParameter>, xs: seq<Element>) {
    |qs| == |xs| && forall k :: 0 <= k < |qs| ==> Corresponds(qs[k], xs[k])
  }

  lemma AllCorrespondAppend(a: seq<U.SourceUploadParameter>, b: seq<U.SourceUploadParameter>, x: seq<Element>, y: seq<Element>)
    requires AllCorrespond(a, x) && AllCorrespond(b, y)
    ensures AllCorrespond(a + b, x + y)
  {
  }

  /** The upload entries and the exported `<Parameter>` elements of the same
      parameter editors correspond one to one, in order. */
  lemma {:induction false} UploadParametersMatchEntries(ps: seq<P.ParameterEditor>)
    ensures AllCorrespond(UploadParameters(ps), D.ParameterEntries(ps))
  {
    if |ps| > 0 {
      UploadParametersMatchEntries(ps[1..]);
      assert UploadParameters(ps) == UploadEntry(ps[0]) + UploadParameters(ps[1..]);
      assert D.ParameterEntries(ps) == D.ParameterEntry(ps[0]) + D.ParameterEntries(ps[1..]);
      AllCorrespondAppend(UploadEntry(ps[0]), UploadParameters(ps[1..]), D.ParameterEntry(ps[0]), D.ParameterEntries(ps[1..]));
    }
  }

  /** Uploading and exporting agree: the request carries what the exported
      `<Device>` element carries — the name and source attributes, the
      Frequency, Power and Mode texts, and one entry per `<Parameter>`
      element with the same name and value. */
  lemma UploadMatchesExport(e: D.DeviceEditor)
    ensures var r := BuildUploadRequest(e);
      var x := D.ToXElement(e);
      && Some(r.name) == AttributeValue(x.attributes, NameAttribute)
      && r.source == AttributeValue(x.attributes, SourceAttribute)
      && r.frequency == ChildText(x, Frequency)
      && r.power == ChildText(x, Power)
      && r.mode == ChildText(x, Mode)
      && AllCorrespond(r.parameters, Named(x.children, Parameter))
  {
    D.ElementReadBack(e);
    UploadParametersMatchEntries(e.parameters);
  }

  /** The requests built for the editors, in order. */
  function UploadRequests(editors: seq<D.DeviceEditor>): (r: seq<U.SourceUploadRequest>)
    ensures |r| == |editors| && forall k :: 0 <= k < |editors| ==> r[k] == BuildUploadRequest(editors[k])
  {
    seq(|editors|, k requires 0 <= k < |editors| => BuildUploadRequest(editors[k]))
  }

  /** Wrapping values and filtering out the missing ones gives them back. */
  lemma {:induction false} SomesOfPresent<T>(xs: seq<T>)
    ensures Somes(D.Present(xs)) == xs
  {
    if |xs| > 0 {
      SomesOfPresent(xs[1..]);
      assert D.Present(xs)[1..] == D.Present(xs[1..]);
    }
  }

  /** What `UploadSourcesAsync` ends in. */
  datatype UploadOutcome = NothingToUpload | Uploaded(result: U.SourceUploadResult) | UploadFailed

  /** `UploadSourcesAsync`: missing editors are skipped; with none left
      nothing is sent; otherwise one request per editor is uploaded, and an
      exception from the upload ends in failure. The stopwatch reading is
      the parameter `elapsedTicks`. */
  function UploadSources(devices: seq<Option<D.DeviceEditor>>, elapsedTicks: int): (r: UploadOutcome)
    ensures r.NothingToUpload? <==> |Somes(devices)| == 0
    ensures r.UploadFailed? ==> exists e <- Somes(devices) :: !e.Valid()
    ensures |Somes(devices)| > 0 ==> (r.UploadFailed? <==> exists q <- UploadRequests(Somes(devices)) :: !U.RequestIsValid(q))
    ensures r.Uploaded? ==> r.result.uploadedSources == |Somes(devices)|
    ensures r.Uploaded? ==> r.result.totalParameters == U.ParameterCount(UploadRequests(Somes(devices)))
  {
    var editors := Somes(devices);
    if |editors| == 0 then NothingToUpload
    else
      var requests := UploadRequests(editors);
      SomesOfPresent(requests);
      match U.UploadMany(Some(D.Present(requests)), elapsedTicks)
      case Success(result) => Uploaded(result)
      case Failure(_) =>
        var k :| 0 <= k < |requests| && !U.RequestIsValid(requests[k]);
        assert U.RequestError(BuildUploadRequest(editors[k])).Some?;
        UploadFailed
  }

  /** Editors built by the constructor always upload, one source per
      editor. */
  lemma ValidEditorsUpload(devices: seq<Option<D.DeviceEditor>>, elapsedTicks: int)
    requires |Somes(devices)| > 0 && forall e <- Somes(devices) :: e.Valid()
    ensures UploadSources(devices, elapsedTicks).Uploaded?
    ensures UploadSources(devices, elapsedTicks).result.uploadedSources == |Somes(devices)|
  {
    var editors := Somes(devices);
    var requests := UploadRequests(editors);
    SomesOfPresent(requests);
    ValidRequests(editors);
    var outcome := U.UploadMany(Some(D.Present(requests)), elapsedTicks);
    assert outcome.Success?;
    assert UploadSources(devices, elapsedTicks) == Uploaded(outcome.value);
  }

  /** Editors built by the constructor give only valid upload requests. */
  lemma ValidRequests(editors: seq<D.DeviceEditor>)
    requires forall e <- editors :: e.Valid()
    ensures forall q <- UploadRequests(editors) :: U.RequestIsValid(q)
  {
    var requests := UploadRequests(editors);
    forall q <- requests
      ensures U.RequestIsValid(q)
    {
      var k :| 0 <= k < |requests| && requests[k] == q;
      assert editors[k] in editors;
    }
  }

  /** The alerts after an upload: an error when there was nothing to upload
      or the upload failed, a success otherwise. */
  function UploadAlerts(a: Alerts, outcome: UploadOutcome, success: string): (r: Alerts)
    ensures r.Exclusive()
    ensures r.error.Some? <==> !outcome.Uploaded?
    ensures outcome.NothingToUpload? ==> r.error == Some(NoSourcesMessage)
    ensures outcome.UploadFailed? ==> r.error == Some(UploadFailedMessage)
  {
    match outcome
    case NothingToUpload => ShowError(a, NoSourcesMessage)
    case Uploaded(_) => ShowSuccess(ClearAlerts(a), success)
    case UploadFailed => ShowError(ClearAlerts(a), UploadFailedMessage)
  }
}
