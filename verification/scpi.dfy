/** `ScpiCommandGenerator`: the sequential SCPI command list for a hardware
    configuration. */
module ScpiGeneration {
  import opened Wrappers
  import opened Text
  import opened DomainModels
  import opened Collections

  /** The source prefix used when a device names none. */
  const DefaultSource: string := "SOUR1"

  /** The prefix of a device's commands: its trimmed source, or "SOUR1" when
      the source is blank. */
  function SourcePrefix(device: DeviceConfiguration): (p: string)
    ensures IsNullOrWhiteSpace(device.source) ==> p == DefaultSource
    ensures !IsNullOrWhiteSpace(device.source) ==> p == Trim(device.source.value)
    ensures !IsBlank(p)
  {
    if IsNullOrWhiteSpace(device.source) then
      assert DefaultSource[0] == 'S';
      DefaultSource
    else
      TrimmedBlankIsEmpty(device.source.value);
      Trim(device.source.value)
  }

  /** The command for a line of text: the line trimmed. A line holding a
      non-whitespace character at position `i` gives a non-blank command. */
  function CommandLine(line: string, i: nat): (c: ScpiCommand)
    requires i < |line| && !IsWhiteSpace(line[i])
    ensures c.text == Trim(line) && !IsBlank(c.text)
  {
    TrimmedBlankIsEmpty(line);
    ScpiCommand(Trim(line))
  }

  /** `AppendIfPresent`: "source:command value", trimmed, when the value is
      non-blank; nothing otherwise. */
  function CommandIfPresent(source: string, command: string, value: Option<string>): (r: seq<ScpiCommand>)
    ensures |r| <= 1
    ensures r == [] <==> IsNullOrWhiteSpace(value)
    ensures r != [] ==> r[0].text == Trim(source + ":" + command + " " + value.value)
    ensures NoneBlank(r)
  {
    if IsNullOrWhiteSpace(value) then []
    else
      var line := source + ":" + command + " " + value.value;
      [CommandLine(line, |source|)]
  }

  /** The text of a parameter's command before trimming: "name value" when
      the name contains a colon (the name already carries its own prefix),
      "source:name value" otherwise. */
  function ParameterLine(source: string, name: string, value: string): (line: string)
    ensures ':' in name ==> line == name + " " + value
    ensures ':' !in name ==> line == source + ":" + name + " " + value
  {
    if ':' in name then name + " " + value else source + ":" + name + " " + value
  }

  /** One parameter's command: nothing when the trimmed name or value is
      blank, otherwise the trimmed `ParameterLine` of the trimmed name and
      value. */
  function ParameterCommand(source: string, parameter: DeviceParameter): (r: seq<ScpiCommand>)
    ensures |r| <= 1
    ensures r == [] <==> IsBlank(parameter.name) || IsBlank(parameter.value)
    ensures r != [] ==> r[0].text == Trim(ParameterLine(source, Trim(parameter.name), Trim(parameter.value)))
    ensures NoneBlank(r)
  {
    if IsBlank(parameter.name) || IsBlank(parameter.value) then []
    else
      var name := Trim(parameter.name);
      var value := Trim(parameter.value);
      assert |name| > 0 && !IsWhiteSpace(name[0]);
      ParameterLineMarked(source, name, value);
      [CommandLine(ParameterLine(source, name, value), if ':' in name then 0 else |source|)]
  }

  /** A parameter line holds a non-whitespace character: the name's first
      when the name carries its own prefix, the colon after the source
      otherwise. */
  lemma ParameterLineMarked(source: string, name: string, value: string)
    requires |name| > 0 && !IsWhiteSpace(name[0])
    ensures var line := ParameterLine(source, name, value);
      var i := if ':' in name then 0 else |source|;
      i < |line| && !IsWhiteSpace(line[i])
  {
    var line := ParameterLine(source, name, value);
    if ':' in name {
      assert line[0] == name[0];
    } else {
      assert line[|source|] == ':';
    }
  }

  /** The commands of every parameter, in parameter order. */
  function ParameterCommands(source: string, parameters: seq<DeviceParameter>): (r: seq<ScpiCommand>)
    ensures |r| <= |parameters|
  {
    if |parameters| == 0 then []
    else ParameterCommand(source, parameters[0]) + ParameterCommands(source, parameters[1..])
  }

  /** The commands of one device: FREQ:CW, POW and MODE (each when present),
      then its parameters. */
  function DeviceCommands(device: DeviceConfiguration): (r: seq<ScpiCommand>)
    ensures |r| <= 3 + |device.parameters|
  {
    var source := SourcePrefix(device);
    CommandIfPresent(source, "FREQ:CW", device.frequency)
    + CommandIfPresent(source, "POW", device.power)
    + CommandIfPresent(source, "MODE", device.mode)
    + ParameterCommands(source, device.parameters)
  }

  /** The commands of a device list, device after device. */
  function AllCommands(devices: seq<DeviceConfiguration>): seq<ScpiCommand> {
    FlatMap(devices, DeviceCommands)
  }

  /** `Generate`: a null configuration throws; otherwise the commands of its
      devices in device order. */
  function Generate(configuration: Option<HardwareConfiguration>): (r: Result<seq<ScpiCommand>>)
    ensures configuration.None? <==> r.Failure?
    ensures r.Failure? ==> r.error == ArgumentNullException("configuration")
    ensures r.Success? ==> r.value == AllCommands(configuration.value.devices)
  {
    match configuration
    case None => Failure(ArgumentNullException("configuration"))
    case Some(c) => Success(AllCommands(c.devices))
  }

  /** The total number of parameters of a device list. */
  function ParameterTotal(devices: seq<DeviceConfiguration>): nat {
    if |devices| == 0 then 0 else |devices[0].parameters| + ParameterTotal(devices[1..])
  }

  /** At most three commands per device plus one per parameter. */
  lemma AllCommandsBound(devices: seq<DeviceConfiguration>)
    ensures |AllCommands(devices)| <= 3 * |devices| + ParameterTotal(devices)
  {
    FlatMapLength(devices, DeviceCommands);
    DeviceCountsBound(devices);
  }

  lemma {:induction false} DeviceCountsBound(devices: seq<DeviceConfiguration>)
    ensures SumLengths(devices, DeviceCommands) <= 3 * |devices| + ParameterTotal(devices)
  {
    if |devices| > 0 {
      DeviceCountsBound(devices[1..]);
    }
  }

  /** The device lists' commands concatenate: splitting the devices splits
      the output at the same place. */
  lemma AllCommandsAppend(a: seq<DeviceConfiguration>, b: seq<DeviceConfiguration>)
    ensures AllCommands(a + b) == AllCommands(a) + AllCommands(b)
  {
    FlatMapAppend(a, b, DeviceCommands);
  }

  /** No emitted command is blank. */
  lemma {:induction false} ParameterCommandsNotBlank(source: string, parameters: seq<DeviceParameter>)
    ensures NoneBlank(ParameterCommands(source, parameters))
  {
    if |parameters| > 0 {
      ParameterCommandsNotBlank(source, parameters[1..]);
      NoneBlankAppend(ParameterCommand(source, parameters[0]), ParameterCommands(source, parameters[1..]));
    }
  }

  /** No command of a configuration is blank. */
  lemma AllCommandsNotBlank(devices: seq<DeviceConfiguration>)
    ensures forall c <- AllCommands(devices) :: !IsBlank(c.text)
  {
    forall c <- AllCommands(devices)
      ensures !IsBlank(c.text)
    {
      FlatMapMembers(devices, DeviceCommands, c);
      var i :| 0 <= i < |devices| && c in DeviceCommands(devices[i]);
      DeviceCommandsNotBlank(devices[i]);
    }
  }

  /** No command of one device is blank. */
  lemma DeviceCommandsNotBlank(device: DeviceConfiguration)
    ensures forall c <- DeviceCommands(device) :: !IsBlank(c.text)
  {
    var source := SourcePrefix(device);
    var freq := CommandIfPresent(source, "FREQ:CW", device.frequency);
    var pow := CommandIfPresent(source, "POW", device.power);
    var mode := CommandIfPresent(source, "MODE", device.mode);
    var params := ParameterCommands(source, device.parameters);
    assert DeviceCommands(device) == freq + pow + mode + params;
    ParameterCommandsNotBlank(source, device.parameters);
    NoneBlankAppend(freq, pow);
    NoneBlankAppend(freq + pow, mode);
    NoneBlankAppend(freq + pow + mode, params);
  }

  /** A parameter that gives a command: neither its name nor its value is
      blank. */
  predicate Emits(p: DeviceParameter) {
    !IsBlank(p.name) && !IsBlank(p.value)
  }

  /** The parameters that give a command, in parameter order. */
  function Emitting(ps: seq<DeviceParameter>): (r: seq<DeviceParameter>)
    ensures |r| <= |ps|
    ensures forall p <- r :: Emits(p) && p in ps
  {
    if |ps| == 0 then []
    else if Emits(ps[0]) then [ps[0]] + Emitting(ps[1..])
    else Emitting(ps[1..])
  }

  /** The command of a parameter that gives one. */
  function EmittedCommand(source: string, p: DeviceParameter): ScpiCommand {
    ScpiCommand(Trim(ParameterLine(source, Trim(p.name), Trim(p.value))))
  }

  /** `EmittedCommand` for one source, as a function of the parameter. */
  function Emitted(source: string): DeviceParameter -> ScpiCommand {
    p => EmittedCommand(source, p)
  }

  /** The parameter commands are exactly those of the parameters whose name
      and value are not blank, one each and in parameter order. */
  lemma {:induction false} ParameterCommandsExact(source: string, ps: seq<DeviceParameter>)
    ensures ParameterCommands(source, ps) == Map(Emitting(ps), Emitted(source))
    decreases |ps|
  {
    if |ps| > 0 {
      ParameterCommandsExact(source, ps[1..]);
      var rest := Emitting(ps[1..]);
      if Emits(ps[0]) {
        assert ParameterCommand(source, ps[0]) == [Emitted(source)(ps[0])];
        MapCons(ps[0], rest, Emitted(source));
      } else {
        assert ParameterCommand(source, ps[0]) == [];
      }
    }
  }

  /** One of a device's three settings: its command keyword and its value. */
  datatype Setting = Setting(command: string, value: Option<string>)

  /** The settings of a device in the order the generator visits them. */
  function Settings(device: DeviceConfiguration): seq<Setting> {
    [Setting("FREQ:CW", device.frequency), Setting("POW", device.power), Setting("MODE", device.mode)]
  }

  /** The settings whose value is present and not blank, as keyword and
      value, in order. */
  function Present(settings: seq<Setting>): (r: seq<(string, string)>)
    ensures |r| <= |settings|
    ensures forall t <- r :: !IsBlank(t.1) && Setting(t.0, Some(t.1)) in settings
  {
    if |settings| == 0 then []
    else if !IsNullOrWhiteSpace(settings[0].value) then [(settings[0].command, settings[0].value.value)] + Present(settings[1..])
    else Present(settings[1..])
  }

  /** The command of a present setting, for one source. */
  function SettingCommand(source: string): ((string, string)) -> ScpiCommand {
    (t: (string, string)) => ScpiCommand(Trim(source + ":" + t.0 + " " + t.1))
  }

  /** The commands of a settings list, each when present. */
  function SettingsCommands(source: string, settings: seq<Setting>): seq<ScpiCommand> {
    if |settings| == 0 then []
    else CommandIfPresent(source, settings[0].command, settings[0].value) + SettingsCommands(source, settings[1..])
  }

  /** A settings list gives one command per present setting, in order. */
  lemma {:induction false} SettingsCommandsExact(source: string, settings: seq<Setting>)
    ensures SettingsCommands(source, settings) == Map(Present(settings), SettingCommand(source))
    decreases |settings|
  {
    if |settings| > 0 {
      SettingsCommandsExact(source, settings[1..]);
      var t := settings[0];
      if !IsNullOrWhiteSpace(t.value) {
        assert CommandIfPresent(source, t.command, t.value) == [SettingCommand(source)((t.command, t.value.value))];
        MapCons((t.command, t.value.value), Present(settings[1..]), SettingCommand(source));
      } else {
        assert CommandIfPresent(source, t.command, t.value) == [];
      }
    }
  }

  /** A settings list with a first setting gives that setting's command
      first. */
  lemma SettingsCommandsCons(source: string, t: Setting, rest: seq<Setting>)
    ensures SettingsCommands(source, [t] + rest) == CommandIfPresent(source, t.command, t.value) + SettingsCommands(source, rest)
  {
    assert ([t] + rest)[1..] == rest;
  }

  /** The three settings' commands are the FREQ:CW, POW and MODE commands
      the generator appends, in that order. */
  lemma SettingsOfDevice(source: string, device: DeviceConfiguration)
    ensures SettingsCommands(source, Settings(device))
      == CommandIfPresent(source, "FREQ:CW", device.frequency)
       + CommandIfPresent(source, "POW", device.power)
       + CommandIfPresent(source, "MODE", device.mode)
  {
    var freq := Setting("FREQ:CW", device.frequency);
    var pow := Setting("POW", device.power);
    var mode := Setting("MODE", device.mode);
    assert Settings(device) == [freq] + ([pow] + ([mode] + []));
    SettingsCommandsCons(source, mode, []);
    SettingsCommandsCons(source, pow, [mode] + []);
    SettingsCommandsCons(source, freq, [pow] + ([mode] + []));
  }

  /** A device's commands, exactly: first one per present setting, in the
      order FREQ:CW, POW, MODE, then one per parameter whose trimmed name and
      value are not blank, in parameter order. */
  lemma DeviceCommandsLayout(device: DeviceConfiguration)
    ensures var source := SourcePrefix(device);
      DeviceCommands(device)
      == Map(Present(Settings(device)), SettingCommand(source)) + Map(Emitting(device.parameters), Emitted(source))
  {
    var source := SourcePrefix(device);
    var settings := Settings(device);
    SettingsOfDevice(source, device);
    SettingsCommandsExact(source, settings);
    ParameterCommandsExact(source, device.parameters);
  }

  /** The number of a device's commands: one per present setting and one per
      parameter that gives a command. */
  lemma DeviceCommandsCount(device: DeviceConfiguration)
    ensures |DeviceCommands(device)| == |Present(Settings(device))| + |Emitting(device.parameters)|
  {
    DeviceCommandsLayout(device);
  }

  /** The parameter WAVE:TYPE=SINE of the repository's first generator
      scenario, on a device with source SOUR1: its name contains a colon, so
      it is emitted as "WAVE:TYPE SINE", without the "SOUR1:" prefix. */
  lemma ColonParameterIsNotPrefixed()
    ensures ParameterCommand("SOUR1", DeviceParameter("WAVE:TYPE", "SINE")) == [ScpiCommand("WAVE:TYPE SINE")]
  {
    var _ := ColonParameter("SOUR1", DeviceParameter("WAVE:TYPE", "SINE"), "WAVE:TYPE SINE");
  }

  /** The frequency setting 1.2GHz of the same scenario is emitted with the
      source prefix: "SOUR1:FREQ:CW 1.2GHz". */
  lemma FrequencyCommandIsPrefixed()
    ensures CommandIfPresent("SOUR1", "FREQ:CW", Some("1.2GHz")) == [ScpiCommand("SOUR1:FREQ:CW 1.2GHz")]
  {
    var _ := PresentCommand("SOUR1", "FREQ:CW", "1.2GHz", "SOUR1:FREQ:CW 1.2GHz");
  }

  /** `CommandIfPresent` on already-trimmed parts gives the single command
      `line`, their "source:command value". */
  lemma PresentCommand(source: string, command: string, value: string, line: string) returns (r: seq<ScpiCommand>)
    requires line == source + ":" + command + " " + value
    requires |value| > 0 && !IsWhiteSpace(value[0]) && !IsWhiteSpace(value[|value| - 1])
    requires !IsWhiteSpace(line[0])
    ensures r == CommandIfPresent(source, command, Some(value)) == [ScpiCommand(line)]
  {
    Trimmed(value);
    assert line[|line| - 1] == value[|value| - 1];
    Trimmed(line);
    r := [ScpiCommand(line)];
  }

  /** `ParameterCommand` on a trimmed parameter whose name contains a colon
      gives the single command `line`, "name value" without the source. */
  lemma ColonParameter(source: string, p: DeviceParameter, line: string) returns (r: seq<ScpiCommand>)
    requires line == p.name + " " + p.value && ':' in p.name
    requires |p.name| > 0 && !IsWhiteSpace(p.name[0]) && !IsWhiteSpace(p.name[|p.name| - 1])
    requires |p.value| > 0 && !IsWhiteSpace(p.value[0]) && !IsWhiteSpace(p.value[|p.value| - 1])
    ensures r == ParameterCommand(source, p) == [ScpiCommand(line)]
  {
    Trimmed(p.name);
    Trimmed(p.value);
    assert line[|line| - 1] == p.value[|p.value| - 1];
    Trimmed(line);
    r := [ScpiCommand(line)];
  }

  /** A string with non-whitespace ends is its own trim and is not blank. */
  lemma Trimmed(s: string)
    requires |s| > 0 && !IsWhiteSpace(s[0]) && !IsWhiteSpace(s[|s| - 1])
    ensures Trim(s) == s && !IsBlank(s)
  {
    TrimOfTrimmed(s);
  }
}
