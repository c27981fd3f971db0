/** The export payload and its `EnsureIsValid` validators. A validator
    returns the exception it would throw, or nothing when the payload is
    valid; each stops at the first problem, in the source's checking order.
 */
module ExportContracts {
  import opened Wrappers
  import opened Text
  import opened Collections

  const NoDevicesMessage: string := "At least one device is required to build an export document."
  const DeviceNameMessage: string := "Each device must specify a name."
  const ConnectionAddressMessage: string := "When a connection is provided, an address is required."
  const ParameterNameMessage: string := "Parameter entries must include a name."

  datatype ExportParameterRequest = ExportParameterRequest(name: string, value: Option<string>)

  datatype ExportConnectionRequest = ExportConnectionRequest(protocol: Option<string>, address: Option<string>, port: Option<string>)

  datatype ExportDeviceRequest = ExportDeviceRequest(
    name: string,
    source: Option<string>,
    frequency: Option<string>,
    power: Option<string>,
    mode: Option<string>,
    connection: Option<ExportConnectionRequest>,
    parameters: seq<ExportParameterRequest>)

  datatype ExportConfigurationRequest = ExportConfigurationRequest(devices: seq<ExportDeviceRequest>)

  /** A parameter needs a name; its value is never checked. */
  predicate ParameterIsValid(p: ExportParameterRequest) {
    !IsBlank(p.name)
  }

  /** A connection is either wholly blank or has an address. */
  predicate ConnectionIsValid(c: ExportConnectionRequest) {
    !IsNullOrWhiteSpace(c.address) || (IsNullOrWhiteSpace(c.protocol) && IsNullOrWhiteSpace(c.port))
  }

  predicate DeviceIsValid(d: ExportDeviceRequest) {
    && !IsBlank(d.name)
    && (forall p <- d.parameters :: ParameterIsValid(p))
    && (d.connection.Some? ==> ConnectionIsValid(d.connection.value))
  }

  predicate RequestIsValid(r: ExportConfigurationRequest) {
    |r.devices| > 0 && forall d <- r.devices :: DeviceIsValid(d)
  }

  /** `ExportParameterRequest.EnsureIsValid`. */
  function ParameterError(p: ExportParameterRequest): (e: Option<Exception>)
    ensures e.None? <==> ParameterIsValid(p)
    ensures e.Some? ==> e.value == InvalidOperationException(ParameterNameMessage)
  {
    if IsBlank(p.name) then Some(InvalidOperationException(ParameterNameMessage)) else None
  }

  /** `ExportConnectionRequest.EnsureIsValid`: a wholly blank connection
      passes; otherwise a blank address throws. */
  function ConnectionError(c: ExportConnectionRequest): (e: Option<Exception>)
    ensures e.None? <==> ConnectionIsValid(c)
    ensures e.Some? ==> e.value == InvalidOperationException(ConnectionAddressMessage)
  {
    if IsNullOrWhiteSpace(c.address) && IsNullOrWhiteSpace(c.protocol) && IsNullOrWhiteSpace(c.port) then None
    else if IsNullOrWhiteSpace(c.address) then Some(InvalidOperationException(ConnectionAddressMessage))
    else None
  }

  /** `ExportDeviceRequest.EnsureIsValid`: the name, then each parameter in
      order, then the connection. */
  function DeviceError(d: ExportDeviceRequest): (e: Option<Exception>)
    ensures e.None? <==> DeviceIsValid(d)
    ensures IsBlank(d.name) ==> e == Some(InvalidOperationException(DeviceNameMessage))
    ensures !IsBlank(d.name) && (exists p <- d.parameters :: !ParameterIsValid(p)) ==>
      e == Some(InvalidOperationException(ParameterNameMessage))
    ensures DeviceIsValid(d.(connection := None)) && d.connection.Some? ==> e == ConnectionError(d.connection.value)
  {
    if IsBlank(d.name) then Some(InvalidOperationException(DeviceNameMessage))
    else
      var parameterError := FirstSome(d.parameters, ParameterError);
      if parameterError.Some? then parameterError
      else if d.connection.Some? then ConnectionError(d.connection.value)
      else None
  }

  /** `ExportConfigurationRequest.EnsureIsValid`: an empty device list, then
      the first invalid device in order. */
  function RequestError(r: ExportConfigurationRequest): (e: Option<Exception>)
    ensures e.None? <==> RequestIsValid(r)
    ensures |r.devices| == 0 ==> e == Some(InvalidOperationException(NoDevicesMessage))
    ensures |r.devices| > 0 && e.Some? ==>
      exists i :: 0 <= i < |r.devices| && e == DeviceError(r.devices[i]) && forall j :: 0 <= j < i ==> DeviceIsValid(r.devices[j])
  {
    if |r.devices| == 0 then Some(InvalidOperationException(NoDevicesMessage))
    else FirstSome(r.devices, DeviceError)
  }

  /** A wholly blank connection is valid whatever else it holds. */
  lemma BlankConnectionIsValid(c: ExportConnectionRequest)
    requires IsNullOrWhiteSpace(c.address) && IsNullOrWhiteSpace(c.protocol) && IsNullOrWhiteSpace(c.port)
    ensures ConnectionError(c).None?
  {
  }

  /** A protocol or port without an address is rejected. */
  lemma AddresslessConnectionIsInvalid(c: ExportConnectionRequest)
    requires IsNullOrWhiteSpace(c.address) && (!IsNullOrWhiteSpace(c.protocol) || !IsNullOrWhiteSpace(c.port))
    ensures ConnectionError(c) == Some(InvalidOperationException(ConnectionAddressMessage))
  {
  }
}
