/** The configuration domain: devices with their SCPI settings, named
    parameters and instrument connection, and the hardware configuration
    that lists them. Every constructor normalises its text inputs. */
module DomainModels {
  import opened Wrappers
  import opened Text

  /** The message `ArgumentException.ThrowIfNullOrWhiteSpace` uses for a
      blank argument. */
  const BlankArgumentMessage: string := "The value cannot be an empty string or composed entirely of whitespace."

  const NoDevicesMessage: string := "The configuration must contain at least one device."

  /** A named parameter as read from a configuration document. */
  datatype DeviceParameter = DeviceParameter(name: string, value: string)

  /** Connectivity metadata of a device; each field is null or non-blank
      trimmed text. */
  datatype InstrumentConnection = InstrumentConnection(protocol: Option<string>, host: Option<string>, port: Option<string>) {
    predicate Normalised() {
      IsNormalised(protocol) && IsNormalised(host) && IsNormalised(port)
    }
  }

  /** The `InstrumentConnection` constructor: each field through `Normalize`. */
  function NewInstrumentConnection(protocol: Option<string>, host: Option<string>, port: Option<string>): (c: InstrumentConnection)
    ensures NormalisedFrom(c.protocol, protocol)
    ensures NormalisedFrom(c.host, host)
    ensures NormalisedFrom(c.port, port)
    ensures c.Normalised()
  {
    NullIfBlankIsNormalised(protocol);
    NullIfBlankIsNormalised(host);
    NullIfBlankIsNormalised(port);
    InstrumentConnection(NullIfBlank(protocol), NullIfBlank(host), NullIfBlank(port))
  }

  /** Normalising a connection's own fields again yields the same connection. */
  lemma ConnectionNormaliseIdempotent(protocol: Option<string>, host: Option<string>, port: Option<string>)
    ensures var c := NewInstrumentConnection(protocol, host, port);
      NewInstrumentConnection(c.protocol, c.host, c.port) == c
  {
    NullIfBlankIdempotent(protocol);
    NullIfBlankIdempotent(host);
    NullIfBlankIdempotent(port);
  }

  /** One device of a configuration. */
  datatype DeviceConfiguration = DeviceConfiguration(
    name: string,
    source: Option<string>,
    frequency: Option<string>,
    power: Option<string>,
    mode: Option<string>,
    parameters: seq<DeviceParameter>,
    connection: Option<InstrumentConnection>)
  {
    /** What the constructor guarantees: a non-blank name and normalised
        settings. */
    predicate Valid() {
      !IsBlank(name) && IsNormalised(source) && IsNormalised(frequency) && IsNormalised(power) && IsNormalised(mode)
    }
  }

  /** The settings of a device with the four text fields normalised. */
  function NormalisedDevice(
    name: string, source: Option<string>, frequency: Option<string>, power: Option<string>, mode: Option<string>,
    parameters: seq<DeviceParameter>, connection: Option<InstrumentConnection>): (d: DeviceConfiguration)
    requires !IsBlank(name)
    ensures d.Valid()
    ensures d.name == name && d.parameters == parameters && d.connection == connection
    ensures NormalisedFrom(d.source, source) && NormalisedFrom(d.frequency, frequency)
    ensures NormalisedFrom(d.power, power) && NormalisedFrom(d.mode, mode)
  {
    NullIfBlankNormalises(source);
    NullIfBlankNormalises(frequency);
    NullIfBlankNormalises(power);
    NullIfBlankNormalises(mode);
    DeviceConfiguration(name, NullIfBlank(source), NullIfBlank(frequency), NullIfBlank(power), NullIfBlank(mode),
      parameters, connection)
  }

  /** The `DeviceConfiguration` constructor. A blank name throws; the name is
      kept as given, untrimmed; the four settings are normalised; a null
      parameter list becomes empty; the connection is stored as given. */
  function NewDeviceConfiguration(
    name: string, source: Option<string>, frequency: Option<string>, power: Option<string>, mode: Option<string>,
    parameters: Option<seq<DeviceParameter>>, connection: Option<InstrumentConnection>): (r: Result<DeviceConfiguration>)
    ensures r.Failure? <==> IsBlank(name)
    ensures r.Failure? ==> r.error == ArgumentException("name", BlankArgumentMessage)
    ensures r.Success? ==> r.value == NormalisedDevice(name, source, frequency, power, mode, parameters.GetOr([]), connection)
  {
    if IsBlank(name) then Failure(ArgumentException("name", BlankArgumentMessage))
    else Success(NormalisedDevice(name, source, frequency, power, mode, parameters.GetOr([]), connection))
  }

  /** Reconstructing a valid device from its own fields gives it back. */
  lemma DeviceRoundTrip(d: DeviceConfiguration)
    requires d.Valid()
    ensures NewDeviceConfiguration(d.name, d.source, d.frequency, d.power, d.mode, Some(d.parameters), d.connection) == Success(d)
  {
    NormalisedFixed(d.source);
    NormalisedFixed(d.frequency);
    NormalisedFixed(d.power);
    NormalisedFixed(d.mode);
  }

  /** The root configuration: a non-empty device list. */
  datatype HardwareConfiguration = HardwareConfiguration(devices: seq<DeviceConfiguration>) {
    predicate Valid() {
      |devices| > 0
    }
  }

  /** The `HardwareConfiguration` constructor: a null sequence throws
      `ArgumentNullException`, an empty one `ArgumentException`; otherwise the
      devices are kept in order. */
  function NewHardwareConfiguration(devices: Option<seq<DeviceConfiguration>>): (r: Result<HardwareConfiguration>)
    ensures devices.None? ==> r == Failure(ArgumentNullException("devices"))
    ensures devices.Some? && |devices.value| == 0 ==> r == Failure(ArgumentException("devices", NoDevicesMessage))
    ensures r.Success? <==> devices.Some? && |devices.value| > 0
    ensures r.Success? ==> r.value.devices == devices.value && r.value.Valid()
  {
    match devices
    case None => Failure(ArgumentNullException("devices"))
    case Some(list) =>
      if |list| == 0 then Failure(ArgumentException("devices", NoDevicesMessage))
      else Success(HardwareConfiguration(list))
  }

  /** One SCPI command line. */
  datatype ScpiCommand = ScpiCommand(text: string)

  /** No command of `cs` is blank. */
  predicate NoneBlank(cs: seq<ScpiCommand>) {
    forall i :: 0 <= i < |cs| ==> !IsBlank(cs[i].text)
  }

  lemma NoneBlankAppend(a: seq<ScpiCommand>, b: seq<ScpiCommand>)
    requires NoneBlank(a) && NoneBlank(b)
    ensures NoneBlank(a + b)
  {
    forall i | 0 <= i < |a + b|
      ensures !IsBlank((a + b)[i].text)
    {
      if i < |a| {
        assert (a + b)[i] == a[i];
      } else {
        assert (a + b)[i] == b[i - |a|];
      }
    }
  }
}
