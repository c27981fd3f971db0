/** `ConfigurationExportService.CreateDocument`: a validated export request
    becomes a `<Configuration>` document with one `<Device>` element per
    device, in order. Values are trimmed and blank values are left out.
 */
module ConfigurationExport {
  import opened Wrappers
  import opened Text
  import opened Collections
  import opened Xml
  import opened ExportContracts

  /** `Normalize`: the trimmed value, or the empty string when the value is
      missing or blank. */
  function Normalize(value: Option<string>): (r: string)
    ensures r == [] <==> IsNullOrWhiteSpace(value)
    ensures IsBlank(r) <==> IsNullOrWhiteSpace(value)
    ensures r != [] ==> NullIfBlank(value) == Some(r)
  {
    match NullIfBlank(value)
    case None => []
    case Some(trimmed) => trimmed
  }

  /** `AppendChildElement`: a text child holding the normalised value, only
      when that value is not blank. The source's "normalise, then skip if
      blank" is `NullIfBlank`, as `Normalize`'s contract shows. */
  function ChildElement(name: Tag, value: Option<string>): (r: seq<Element>)
    ensures r == [] <==> IsNullOrWhiteSpace(value)
    ensures r != [] ==> r == [Leaf(name, Normalize(value))]
    ensures |r| <= 1 && AllNamed(r, name)
  {
    OptionalLeaf(name, NullIfBlank(value))
  }

  /** A `<Connection>` element: the protocol attribute, the Address child and
      the Port child are present exactly when there is a value for them, and
      read back as that value. */
  function ConnectionNode(protocol: Option<string>, address: Option<string>, port: Option<string>): (e: Element)
    ensures e.name == Connection
    ensures AttributeValue(e.attributes, ProtocolAttribute) == protocol
    ensures ChildText(e, Address) == address
    ensures ChildText(e, Port) == port
  {
    var a := OptionalLeaf(Address, address);
    var p := OptionalLeaf(Port, port);
    NamedAppend(a, p, Address);
    NamedAppend(a, p, Port);
    NamedAll(a, Address);
    NamedAll(p, Port);
    NamedOther(p, Port, Address);
    NamedOther(a, Address, Port);
    assert Named(a + p, Address) == a + [];
    assert Named(a + p, Port) == [] + p;
    Element(Connection, OptionalAttribute(ProtocolAttribute, protocol), a + p, [])
  }

  /** `AppendConnection`: nothing for a missing or wholly blank connection,
      otherwise one `<Connection>` element built from the normalised
      values. */
  function ConnectionElement(c: Option<ExportConnectionRequest>): (r: seq<Element>)
    ensures r == [] <==> c.None? || (IsNullOrWhiteSpace(c.value.protocol) && IsNullOrWhiteSpace(c.value.address) && IsNullOrWhiteSpace(c.value.port))
    ensures |r| <= 1 && AllNamed(r, Connection)
  {
    if c.None? then []
    else
      var address := NullIfBlank(c.value.address);
      var protocol := NullIfBlank(c.value.protocol);
      var port := NullIfBlank(c.value.port);
      if address.None? && protocol.None? && port.None? then []
      else [ConnectionNode(protocol, address, port)]
  }

  /** Reading a connection element back gives each of its values as the
      request held it, trimmed, and nothing for the blank ones. */
  lemma ConnectionReadBack(c: ExportConnectionRequest)
    requires !(IsNullOrWhiteSpace(c.protocol) && IsNullOrWhiteSpace(c.address) && IsNullOrWhiteSpace(c.port))
    ensures AttributeValue(ConnectionElement(Some(c))[0].attributes, ProtocolAttribute) == NullIfBlank(c.protocol)
    ensures ChildText(ConnectionElement(Some(c))[0], Address) == NullIfBlank(c.address)
    ensures ChildText(ConnectionElement(Some(c))[0], Port) == NullIfBlank(c.port)
  {
  }

  /** The `<Parameter>` element of a parameter with a non-blank value. */
  function ParameterNode(name: string, value: string): Element {
    Element(Parameter, [Attribute(NameAttribute, Trim(name)), Attribute(ValueAttribute, value)], [], [])
  }

  /** One parameter's contribution: nothing when its value is blank. */
  function ParameterElement(p: ExportParameterRequest): (r: seq<Element>)
    ensures r == [] <==> IsNullOrWhiteSpace(p.value)
    ensures r != [] ==> r == [ParameterNode(p.name, NullIfBlank(p.value).value)]
  {
    match NullIfBlank(p.value)
    case None => []
    case Some(value) => [ParameterNode(p.name, value)]
  }

  /** The `<Parameter>` elements of a device: one per parameter with a
      non-blank value, in order. */
  function ParameterElements(ps: seq<ExportParameterRequest>): (r: seq<Element>)
    ensures AllNamed(r, Parameter)
  {
    var r := FlatMap(ps, ParameterElement);
    assert AllNamed(r, Parameter) by {
      forall k | 0 <= k < |r|
        ensures r[k].name == Parameter
      {
        FlatMapMembers(ps, ParameterElement, r[k]);
      }
    }
    r
  }

  /** Each exported parameter element is the element of one of the
      parameters, and each parameter with a non-blank value contributes its
      trimmed name and value. */
  lemma ParameterElementsExact(ps: seq<ExportParameterRequest>)
    ensures forall e <- ParameterElements(ps) :: exists i :: 0 <= i < |ps| && ParameterElement(ps[i]) == [e]
    ensures forall i :: 0 <= i < |ps| && !IsNullOrWhiteSpace(ps[i].value) ==>
      ParameterNode(ps[i].name, Trim(ps[i].value.value)) in ParameterElements(ps)
  {
    forall e <- ParameterElements(ps)
      ensures exists i :: 0 <= i < |ps| && ParameterElement(ps[i]) == [e]
    {
      FlatMapMembers(ps, ParameterElement, e);
    }
    forall i | 0 <= i < |ps| && !IsNullOrWhiteSpace(ps[i].value)
      ensures ParameterNode(ps[i].name, Trim(ps[i].value.value)) in ParameterElements(ps)
    {
      FlatMapIncludes(ps, ParameterElement, i, ParameterNode(ps[i].name, Trim(ps[i].value.value)));
    }
  }

  /** The parameters that carry a non-blank value. */
  function Valued(ps: seq<ExportParameterRequest>): (r: seq<ExportParameterRequest>)
    ensures |r| <= |ps|
    ensures forall p <- r :: p in ps && !IsNullOrWhiteSpace(p.value)
    ensures forall p <- ps :: !IsNullOrWhiteSpace(p.value) ==> p in r
  {
    if |ps| == 0 then []
    else
      var rest := Valued(ps[1..]);
      assert forall p <- ps[1..] :: p in ps;
      assert forall p <- ps :: p == ps[0] || p in ps[1..];
      if IsNullOrWhiteSpace(ps[0].value) then rest else [ps[0]] + rest
  }

  /** A parameter whose value is blank exports nothing, so there are as many
      parameter elements as parameters with a value. */
  lemma {:induction false} ParameterElementsCount(ps: seq<ExportParameterRequest>)
    ensures |ParameterElements(ps)| == |Valued(ps)|
  {
    FlatMapLength(ps, ParameterElement);
    SumLengthsValued(ps);
  }

  lemma {:induction false} SumLengthsValued(ps: seq<ExportParameterRequest>)
    ensures SumLengths(ps, ParameterElement) == |Valued(ps)|
    decreases |ps|
  {
    if |ps| > 0 {
      SumLengthsValued(ps[1..]);
    }
  }

  /** The text children of a device, then its connection, then its
      parameters. */
  function DeviceChildren(d: ExportDeviceRequest): seq<Element> {
    ChildElement(Frequency, d.frequency) + ChildElement(Power, d.power) + ChildElement(Mode, d.mode)
      + ConnectionElement(d.connection) + ParameterElements(d.parameters)
  }

  /** Selecting by name distributes over the five parts of a device's
      children. */
  lemma {:induction false} NamedOfFive(f: seq<Element>, p: seq<Element>, m: seq<Element>, c: seq<Element>, ps: seq<Element>, name: Tag)
    ensures Named(f + p + m + c + ps, name)
         == Named(f, name) + Named(p, name) + Named(m, name) + Named(c, name) + Named(ps, name)
  {
    NamedAppend(f + p + m + c, ps, name);
    NamedAppend(f + p + m, c, name);
    NamedAppend(f + p, m, name);
    NamedAppend(f, p, name);
  }

  /** Elements that all carry one name: selecting that name gives them all,
      selecting any other gives nothing. */
  lemma NamedPiece(es: seq<Element>, own: Tag, name: Tag)
    requires AllNamed(es, own)
    ensures Named(es, name) == if own == name then es else []
  {
    if own == name {
      NamedAll(es, name);
    } else {
      NamedOther(es, own, name);
    }
  }

  /** Selecting the name of one of five parts, each with its own name,
      gives that part. */
  lemma SelectPart(f: seq<Element>, p: seq<Element>, m: seq<Element>, c: seq<Element>, ps: seq<Element>, name: Tag)
    requires AllNamed(f, Frequency) && AllNamed(p, Power) && AllNamed(m, Mode)
    requires AllNamed(c, Connection) && AllNamed(ps, Parameter)
    ensures Named(f + p + m + c + ps, name)
         == match name
            case Frequency => f
            case Power => p
            case Mode => m
            case Connection => c
            case Parameter => ps
            case _ => []
  {
    NamedOfFive(f, p, m, c, ps, name);
    NamedPiece(f, Frequency, name);
    NamedPiece(p, Power, name);
    NamedPiece(m, Mode, name);
    NamedPiece(c, Connection, name);
    NamedPiece(ps, Parameter, name);
  }

  /** `BuildDeviceElement`: the `<Device>` element with the trimmed name,
      the source attribute when the source is not blank, and the children. */
  function BuildDeviceElement(d: ExportDeviceRequest): (e: Element)
    ensures e.name == Device
    ensures AttributeValue(e.attributes, NameAttribute) == Some(Trim(d.name))
    ensures AttributeValue(e.attributes, SourceAttribute) == NullIfBlank(d.source)
  {
    Element(Device, [Attribute(NameAttribute, Trim(d.name))] + OptionalAttribute(SourceAttribute, NullIfBlank(d.source)), DeviceChildren(d), [])
  }

  /** Reading a device element back gives the non-blank trimmed frequency,
      power and mode, the device's connection element and its parameter
      elements. */
  lemma DeviceReadBack(d: ExportDeviceRequest)
    ensures ChildText(BuildDeviceElement(d), Frequency) == NullIfBlank(d.frequency)
    ensures ChildText(BuildDeviceElement(d), Power) == NullIfBlank(d.power)
    ensures ChildText(BuildDeviceElement(d), Mode) == NullIfBlank(d.mode)
    ensures Named(BuildDeviceElement(d).children, Connection) == ConnectionElement(d.connection)
    ensures Named(BuildDeviceElement(d).children, Parameter) == ParameterElements(d.parameters)
  {
    var f := ChildElement(Frequency, d.frequency);
    var p := ChildElement(Power, d.power);
    var m := ChildElement(Mode, d.mode);
    var c := ConnectionElement(d.connection);
    var ps := ParameterElements(d.parameters);
    var x := BuildDeviceElement(d);
    assert x.children == f + p + m + c + ps;
    SelectPart(f, p, m, c, ps, Frequency);
    LeafText(x, Frequency, NullIfBlank(d.frequency));
    SelectPart(f, p, m, c, ps, Power);
    LeafText(x, Power, NullIfBlank(d.power));
    SelectPart(f, p, m, c, ps, Mode);
    LeafText(x, Mode, NullIfBlank(d.mode));
    SelectPart(f, p, m, c, ps, Connection);
    SelectPart(f, p, m, c, ps, Parameter);
  }

  /** `CreateDocument`: a missing request throws `ArgumentNullException`; an
      invalid one throws what its validation throws; a valid one becomes a
      document with the "1.0"/"utf-8"/"yes" declaration whose `<Configuration>`
      root holds one `<Device>` element per device, in order. */
  function CreateDocument(request: Option<ExportConfigurationRequest>): (r: Result<Document>)
    ensures request.None? ==> r == Failure(ArgumentNullException("request"))
    ensures request.Some? ==> (r.Success? <==> RequestIsValid(request.value))
    ensures request.Some? && r.Failure? ==> RequestError(request.value) == Some(r.error)
    ensures r.Success? ==> r.value.declaration == Declaration("1.0", "utf-8", "yes")
    ensures r.Success? ==> r.value.root.name == Configuration
    ensures r.Success? ==> |r.value.root.children| == |request.value.devices|
    ensures r.Success? ==> forall i :: 0 <= i < |request.value.devices| ==>
      r.value.root.children[i] == BuildDeviceElement(request.value.devices[i])
  {
    if request.None? then Failure(ArgumentNullException("request"))
    else
      var error := RequestError(request.value);
      if error.Some? then Failure(error.value)
      else
        var devices := request.value.devices;
        var root := Element(Configuration, [], seq(|devices|, i requires 0 <= i < |devices| => BuildDeviceElement(devices[i])), []);
        Success(Document(Declaration("1.0", "utf-8", "yes"), root))
  }

  /** Every exported device carries the trimmed name of the request's device
      at the same position, which is never empty because validation rejects
      blank names. */
  lemma ExportedNamesAreTrimmed(request: ExportConfigurationRequest, i: nat)
    requires CreateDocument(Some(request)).Success? && i < |request.devices|
    ensures AttributeValue(CreateDocument(Some(request)).value.root.children[i].attributes, NameAttribute) == Some(Trim(request.devices[i].name))
    ensures Trim(request.devices[i].name) != []
  {
    assert request.devices[i] in request.devices;
  }
}
