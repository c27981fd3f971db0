/** `InstrumentConnectionEditorViewModel`: the editable connection of one
    device, with defaults fixed at construction. The editor is a value; each
    mutator returns the updated editor. */
module ConnectionEditors {
  import opened Wrappers
  import opened Text
  import opened Xml
  import opened DomainModels
  import opened ConfigurationExport

  const DefaultProtocolText: string := "HiSLIP"
  const DefaultPortText: string := "4880"

  /** The editor's private `Normalize(value, fallback)`: a blank value gives
      the fallback, anything else its trim; a blank outcome is null. The
      fallback is taken as it is, untrimmed. */
  function EditorNormalize(value: Option<string>, fallback: Option<string>): (r: Option<string>)
    ensures r.None? <==> IsNullOrWhiteSpace(value) && IsNullOrWhiteSpace(fallback)
    ensures !IsNullOrWhiteSpace(value) ==> r == NullIfBlank(value)
    ensures IsNullOrWhiteSpace(value) && !IsNullOrWhiteSpace(fallback) ==> r == fallback
    ensures r.Some? ==> !IsBlank(r.value)
  {
    var result := if IsNullOrWhiteSpace(value) then fallback else Some(Trim(value.value));
    TrimmedBlankIsEmpty(if value.Some? then value.value else []);
    if IsNullOrWhiteSpace(result) then None else result
  }

  /** With a normalised fallback, the outcome is normalised too. */
  lemma EditorNormalizeIsNormalised(value: Option<string>, fallback: Option<string>)
    requires IsNormalised(fallback)
    ensures IsNormalised(EditorNormalize(value, fallback))
  {
    NullIfBlankIsNormalised(value);
  }

  datatype ConnectionEditor = ConnectionEditor(
    defaultProtocol: string, defaultHost: string, defaultPort: string,
    protocol: string, host: string, port: string)
  {
    /** What the constructor establishes: a normalised protocol and port
        default, and a host default that is empty or normalised. */
    predicate Valid() {
      && IsNormalised(Some(defaultProtocol))
      && IsNormalised(Some(defaultPort))
      && (defaultHost == [] || IsNormalised(Some(defaultHost)))
    }
  }

  /** The built-in protocol and port defaults are normalised. */
  lemma BuiltInDefaultsNormalised()
    ensures IsNormalised(Some(DefaultProtocolText)) && IsNormalised(Some(DefaultPortText))
  {
    TrimOfTrimmed(DefaultProtocolText);
    TrimOfTrimmed(DefaultPortText);
  }

  /** Without a fallback, the editor's normalisation is the common one. */
  lemma NormalizeWithoutFallback(value: Option<string>)
    ensures EditorNormalize(value, None) == NullIfBlank(value)
  {
  }

  /** A normalised value, or a default that is empty or normalised. */
  lemma NormalisedOrDefault(value: Option<string>, default: string)
    requires default == [] || IsNormalised(Some(default))
    ensures var x := NullIfBlank(value).GetOr(default); x == [] || IsNormalised(Some(x))
  {
    NullIfBlankIsNormalised(value);
  }

  /** The constructor: each default is the normalised argument, or "HiSLIP",
      the empty host and "4880" when the argument is missing or blank; the
      current fields start at the defaults. */
  function NewConnectionEditor(protocol: Option<string>, host: Option<string>, port: Option<string>): (e: ConnectionEditor)
    ensures e.Valid()
    ensures e.defaultProtocol == NullIfBlank(protocol).GetOr(DefaultProtocolText)
    ensures e.defaultHost == NullIfBlank(host).GetOr([])
    ensures e.defaultPort == NullIfBlank(port).GetOr(DefaultPortText)
    ensures e.protocol == e.defaultProtocol && e.host == e.defaultHost && e.port == e.defaultPort
  {
    NormalizeWithoutFallback(protocol);
    NormalizeWithoutFallback(host);
    NormalizeWithoutFallback(port);
    BuiltInDefaultsNormalised();
    NormalisedOrDefault(protocol, DefaultProtocolText);
    NormalisedOrDefault(host, []);
    NormalisedOrDefault(port, DefaultPortText);
    var p := EditorNormalize(protocol, None).GetOr(DefaultProtocolText);
    var h := EditorNormalize(host, None).GetOr([]);
    var n := EditorNormalize(port, None).GetOr(DefaultPortText);
    ConnectionEditor(p, h, n, p, h, n)
  }

  /** `ResetToDefault`. */
  function ResetToDefault(e: ConnectionEditor): (r: ConnectionEditor)
    ensures r.defaultProtocol == e.defaultProtocol && r.defaultHost == e.defaultHost && r.defaultPort == e.defaultPort
    ensures r.protocol == r.defaultProtocol && r.host == r.defaultHost && r.port == r.defaultPort
  {
    e.(protocol := e.defaultProtocol, host := e.defaultHost, port := e.defaultPort)
  }

  /** `Apply`: no connection resets; otherwise each field takes the
      connection's normalised value, or its default when that is missing or
      blank. The defaults never change. */
  function Apply(e: ConnectionEditor, connection: Option<InstrumentConnection>): (r: ConnectionEditor)
    ensures r.defaultProtocol == e.defaultProtocol && r.defaultHost == e.defaultHost && r.defaultPort == e.defaultPort
    ensures connection.None? ==> r == ResetToDefault(e)
    ensures connection.Some? ==> r.protocol == NullIfBlank(connection.value.protocol).GetOr(e.defaultProtocol)
    ensures connection.Some? ==> r.host == NullIfBlank(connection.value.host).GetOr(e.defaultHost)
    ensures connection.Some? ==> r.port == NullIfBlank(connection.value.port).GetOr(e.defaultPort)
  {
    match connection
    case None => ResetToDefault(e)
    case Some(c) =>
      e.(protocol := EditorNormalize(c.protocol, None).GetOr(e.defaultProtocol),
         host := EditorNormalize(c.host, None).GetOr(e.defaultHost),
         port := EditorNormalize(c.port, None).GetOr(e.defaultPort))
  }

  /** The protocol written out: the current one, or the default. */
  function EffectiveProtocol(e: ConnectionEditor): Option<string> {
    EditorNormalize(Some(e.protocol), Some(e.defaultProtocol))
  }

  /** The host written out; there is no default for it. */
  function EffectiveHost(e: ConnectionEditor): Option<string> {
    EditorNormalize(Some(e.host), None)
  }

  /** The port written out: the current one, or the default. */
  function EffectivePort(e: ConnectionEditor): Option<string> {
    EditorNormalize(Some(e.port), Some(e.defaultPort))
  }

  /** With a normalised default, the written protocol is always present and
      normalised. */
  lemma EffectiveProtocolPresent(e: ConnectionEditor)
    requires IsNormalised(Some(e.defaultProtocol))
    ensures EffectiveProtocol(e).Some? && IsNormalised(EffectiveProtocol(e))
  {
    EditorNormalizeIsNormalised(Some(e.protocol), Some(e.defaultProtocol));
    assert IsNormalised(EffectiveProtocol(e));
  }

  /** With a normalised default, the written port is always present and
      normalised. */
  lemma EffectivePortPresent(e: ConnectionEditor)
    requires IsNormalised(Some(e.defaultPort))
    ensures EffectivePort(e).Some? && IsNormalised(EffectivePort(e))
  {
    EditorNormalizeIsNormalised(Some(e.port), Some(e.defaultPort));
    assert IsNormalised(EffectivePort(e));
  }

  /** The written host is the normalised current host. */
  lemma EffectiveHostNormalised(e: ConnectionEditor)
    ensures EffectiveHost(e) == NullIfBlank(Some(e.host)) && IsNormalised(EffectiveHost(e))
  {
    EditorNormalizeIsNormalised(Some(e.host), None);
  }

  /** `ToXElement`: nothing without a host; otherwise a `<Connection>`
      element whose protocol, Address and Port read back as the effective
      values. */
  function ToXElement(e: ConnectionEditor): (r: Option<Element>)
    ensures r.None? <==> IsBlank(e.host)
    ensures r.Some? ==> r.value.name == Connection
    ensures r.Some? ==> AttributeValue(r.value.attributes, ProtocolAttribute) == EffectiveProtocol(e)
    ensures r.Some? ==> ChildText(r.value, Address) == NullIfBlank(Some(e.host))
    ensures r.Some? ==> ChildText(r.value, Port) == EffectivePort(e)
  {
    var address := EffectiveHost(e);
    if address.None? then None
    else Some(ConnectionNode(EffectiveProtocol(e), address, EffectivePort(e)))
  }

  /** `ToConnectionModel`: the effective values through the
      `InstrumentConnection` constructor. */
  function ToConnectionModel(e: ConnectionEditor): (c: InstrumentConnection)
    ensures c.Normalised()
    ensures c.host == NullIfBlank(Some(e.host))
  {
    NullIfBlankIdempotent(Some(e.host));
    NewInstrumentConnection(EffectiveProtocol(e), EffectiveHost(e), EffectivePort(e))
  }

  /** For an editor built by its constructor, the model always has a
      protocol and a port. */
  lemma ModelIsComplete(e: ConnectionEditor)
    requires e.Valid()
    ensures ToConnectionModel(e).protocol.Some? && ToConnectionModel(e).port.Some?
  {
    EffectiveProtocolPresent(e);
    EffectivePortPresent(e);
  }

  /** The element and the connection model describe the same connection:
      when the element exists its protocol, Address and Port are the model's
      fields. */
  lemma ElementAgreesWithModel(e: ConnectionEditor)
    requires e.Valid() && ToXElement(e).Some?
    ensures AttributeValue(ToXElement(e).value.attributes, ProtocolAttribute) == ToConnectionModel(e).protocol
    ensures ChildText(ToXElement(e).value, Address) == ToConnectionModel(e).host
    ensures ChildText(ToXElement(e).value, Port) == ToConnectionModel(e).port
  {
    EffectiveProtocolPresent(e);
    EffectivePortPresent(e);
    NormalisedFixed(EffectiveProtocol(e));
    NormalisedFixed(EffectivePort(e));
  }

  /** Applying a complete normalised connection and reading the model back
      gives that connection. */
  lemma ApplyThenModel(e: ConnectionEditor, c: InstrumentConnection)
    requires c.Normalised() && c.protocol.Some? && c.host.Some? && c.port.Some?
    ensures ToConnectionModel(Apply(e, Some(c))) == c
  {
    NormalisedFixed(c.protocol);
    NormalisedFixed(c.host);
    NormalisedFixed(c.port);
    var a := Apply(e, Some(c));
    assert a.protocol == c.protocol.value && a.host == c.host.value && a.port == c.port.value;
    NormalisedFixed(Some(a.protocol));
    NormalisedFixed(Some(a.host));
    NormalisedFixed(Some(a.port));
  }

  /** Applying nothing is resetting. */
  lemma ApplyNothingResets(e: ConnectionEditor)
    ensures Apply(e, None) == ResetToDefault(e)
  {
  }

  /** Whether the effective protocol is HiSLIP, in any letter case. */
  predicate UsesHislip(e: ConnectionEditor) {
    EffectiveProtocol(e).Some? && EqualsIgnoreCase(EffectiveProtocol(e).value, "HISLIP")
  }

  /** The VISA device segment: "hislip0" for HiSLIP, "inst0" otherwise. */
  function VisaSegment(e: ConnectionEditor): string {
    if UsesHislip(e) then "hislip0" else "inst0"
  }

  /** "HiSLIP" folds to "HISLIP". */
  lemma DefaultProtocolIsHislip()
    ensures EqualsIgnoreCase(DefaultProtocolText, "HISLIP")
  {
    assert forall k :: 0 <= k < 6 ==> FoldChar(DefaultProtocolText[k]) == FoldChar("HISLIP"[k]);
  }

  /** An editor left on the built-in protocol default addresses the HiSLIP
      device segment. */
  lemma BuiltInDefaultUsesHislip(e: ConnectionEditor)
    requires e.defaultProtocol == DefaultProtocolText && IsBlank(e.protocol)
    ensures VisaSegment(e) == "hislip0"
  {
    BuiltInDefaultsNormalised();
    DefaultProtocolIsHislip();
  }

  /** The separator between the fields of a VISA resource string. */
  const Separator: string := "::"

  /** The "::<port>" part of a VISA string, empty without a port. */
  function PortSuffix(port: Option<string>): string {
    match port
    case None => []
    case Some(p) => Separator + p
  }

  /** `BuildVisaResourceAddress`: empty without a host; otherwise
      "TCPIP0::<host>::<segment>[::<port>]::INSTR". */
  function BuildVisaResourceAddress(e: ConnectionEditor): (r: string)
    ensures r == [] <==> IsBlank(e.host)
    ensures r != [] ==> StartsWith(r, "TCPIP0" + Separator)
  {
    match EffectiveHost(e)
    case None => []
    case Some(address) =>
      "TCPIP0" + Separator + address + Separator + VisaSegment(e) + PortSuffix(EffectivePort(e)) + Separator + "INSTR"
  }

  /** The colon-separated fields of a VISA TCPIP resource string; "::"
      leaves an empty field between neighbours. */
  function VisaFields(address: string, segment: string, port: Option<string>): seq<string> {
    ["TCPIP0", [], address, [], segment] + PortFields(port) + [[], "INSTR"]
  }

  /** The fields a port contributes. */
  function PortFields(port: Option<string>): seq<string> {
    match port
    case None => []
    case Some(p) => [[], p]
  }

  predicate HasNoColon(s: string) {
    forall j :: 0 <= j < |s| ==> s[j] != ':'
  }

  /** `Join` peels off its first piece. */
  lemma JoinFirst(first: string, rest: seq<string>)
    requires |rest| >= 1
    ensures Join([first] + rest, ':') == first + [':'] + Join(rest, ':')
  {
    assert ([first] + rest)[1..] == rest;
  }

  /** An empty piece joins into a leading ':'. */
  lemma JoinEmptyFirst(rest: seq<string>)
    requires |rest| >= 1
    ensures Join([[]] + rest, ':') == [':'] + Join(rest, ':')
  {
    JoinFirst([], rest);
  }

  lemma SeparatorIsTwoColons(left: string, right: string)
    ensures left + [':'] + ([':'] + right) == left + Separator + right
  {
    assert Separator == [':', ':'];
  }

  lemma PairThenRest(first: string, rest: seq<string>)
    ensures [first, []] + rest == [first] + ([[]] + rest)
  {
  }

  /** A piece followed by an empty piece joins with "::". */
  lemma JoinWithSeparator(first: string, rest: seq<string>)
    requires |rest| >= 1
    ensures Join([first, []] + rest, ':') == first + Separator + Join(rest, ':')
  {
    PairThenRest(first, rest);
    JoinFirst(first, [[]] + rest);
    JoinEmptyFirst(rest);
    SeparatorIsTwoColons(first, Join(rest, ':'));
  }

  /** The fields from the port on join into the end of the string. */
  lemma JoinAfterSegment(port: Option<string>)
    ensures [':'] + Join(PortFields(port) + [[], "INSTR"], ':') == PortSuffix(port) + Separator + "INSTR"
  {
    JoinWithSeparator([], ["INSTR"]);
    assert Join(["INSTR"], ':') == "INSTR";
    match port
    case None =>
      assert PortFields(port) + [[], "INSTR"] == [[], "INSTR"];
      SeparatorIsTwoColons([], "INSTR");
    case Some(p) =>
      assert PortFields(port) + [[], "INSTR"] == [[]] + [p, [], "INSTR"];
      JoinEmptyFirst([p, [], "INSTR"]);
      JoinWithSeparator(p, ["INSTR"]);
      SeparatorIsTwoColons([], p + Separator + "INSTR");
      assert [] + Separator + p == Separator + p;
      Regroup(Separator, p, Separator + "INSTR");
  }

  lemma Regroup(a: string, b: string, c: string)
    ensures a + (b + c) == a + b + c
  {
  }

  /** Joining the fields with ':' gives the VISA string. */
  lemma JoinVisaFields(address: string, segment: string, port: Option<string>)
    ensures Join(VisaFields(address, segment, port), ':')
      == "TCPIP0" + Separator + address + Separator + segment + (PortSuffix(port) + Separator + "INSTR")
  {
    var after := PortFields(port) + [[], "INSTR"];
    var fromSegment := [segment] + after;
    var fromAddress := [address, []] + fromSegment;
    assert VisaFields(address, segment, port) == ["TCPIP0", []] + fromAddress;
    JoinWithSeparator("TCPIP0", fromAddress);
    JoinWithSeparator(address, fromSegment);
    JoinFirst(segment, after);
    JoinAfterSegment(port);
    Regroup(segment, [':'], Join(after, ':'));
    Concatenate("TCPIP0", address, segment, PortSuffix(port) + Separator + "INSTR");
  }

  /** The VISA string regrouped as the join builds it. */
  lemma Concatenate(prefix: string, address: string, segment: string, tail: string)
    ensures prefix + Separator + (address + Separator + (segment + tail))
      == prefix + Separator + address + Separator + segment + tail
  {
  }

  /** No field of a VISA string holds a colon when the host and port do
      not. */
  lemma VisaFieldsHaveNoColon(address: string, segment: string, port: Option<string>)
    requires HasNoColon(address) && HasNoColon(segment)
    requires port.Some? ==> HasNoColon(port.value)
    ensures var fields := VisaFields(address, segment, port);
      forall k, j :: 0 <= k < |fields| && 0 <= j < |fields[k]| ==> fields[k][j] != ':'
  {
    var fields := VisaFields(address, segment, port);
    assert HasNoColon("TCPIP0") && HasNoColon("INSTR");
    forall k, j | 0 <= k < |fields| && 0 <= j < |fields[k]|
      ensures fields[k][j] != ':'
    {
      assert HasNoColon(fields[k]);
    }
  }

  lemma SegmentHasNoColon(e: ConnectionEditor)
    ensures HasNoColon(VisaSegment(e))
  {
  }

  /** A VISA string built from a host and port without colons splits on ':'
      back into its fields, so the host and port can be read back from it. */
  lemma VisaAddressSplits(e: ConnectionEditor)
    requires EffectiveHost(e).Some? && HasNoColon(EffectiveHost(e).value)
    requires EffectivePort(e).Some? ==> HasNoColon(EffectivePort(e).value)
    ensures Split(BuildVisaResourceAddress(e), {':'}) == VisaFields(EffectiveHost(e).value, VisaSegment(e), EffectivePort(e))
  {
    var address := EffectiveHost(e).value;
    var segment := VisaSegment(e);
    var suffix := PortSuffix(EffectivePort(e));
    var head := "TCPIP0" + Separator + address + Separator + segment;
    JoinVisaFields(address, segment, EffectivePort(e));
    Regroup(head, suffix, Separator);
    Regroup(head, suffix + Separator, "INSTR");
    Regroup(head + suffix, Separator, "INSTR");
    assert BuildVisaResourceAddress(e) == head + suffix + Separator + "INSTR";
    SegmentHasNoColon(e);
    VisaFieldsHaveNoColon(address, segment, EffectivePort(e));
    JoinSplit(VisaFields(address, segment, EffectivePort(e)), ':', {':'});
  }
}
