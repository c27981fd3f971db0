/** The two ways the `Home` page writes its device editors out: the XML
    view built from the editors' own elements (`BuildXmlFromEditors`), and
    the export request handed to `ConfigurationExportService`
    (`BuildExportRequest`). The lemmas show that the two agree on every
    device, apart from the connection, which the export request never
    carries. Serialising a document to text is not modelled.
 */
module PageExport {
  import opened Wrappers
  import opened Text
  import opened Collections
  import opened Xml
  import P = ParameterEditors
  import D = DeviceEditors
  import X = ExportContracts
  import CE = ConfigurationExport

  /** `BuildXmlFromEditors`, before serialisation: the "1.0"/"utf-8"/"yes"
      declaration and a `<Configuration>` root holding each editor's
      element, in order. */
  function EditorsDocument(editors: seq<D.DeviceEditor>): (r: Document)
    ensures r.declaration == Declaration("1.0", "utf-8", "yes") && r.root.name == Configuration
    ensures |r.root.children| == |editors|
    ensures forall k :: 0 <= k < |editors| ==> r.root.children[k] == D.ToXElement(editors[k])
  {
    Document(Declaration("1.0", "utf-8", "yes"),
      Element(Configuration, [], seq(|editors|, k requires 0 <= k < |editors| => D.ToXElement(editors[k])), []))
  }

  /** A parameter editor as an export entry: its name and effective value. */
  function ExportParameter(p: P.ParameterEditor): X.ExportParameterRequest {
    X.ExportParameterRequest(p.name, Some(P.ValueOrDefault(p)))
  }

  /** The export entries of the parameter editors, one each, in order. */
  function ExportParameters(ps: seq<P.ParameterEditor>): (r: seq<X.ExportParameterRequest>)
    ensures |r| == |ps|
    ensures forall k :: 0 <= k < |ps| ==> r[k].name == ps[k].name
  {
    if |ps| == 0 then [] else [ExportParameter(ps[0])] + ExportParameters(ps[1..])
  }

  /** The export entry of one editor: its name, its effective settings and
      its parameters; the page sets no connection. */
  function ExportDevice(e: D.DeviceEditor): X.ExportDeviceRequest {
    X.ExportDeviceRequest(
      e.name,
      D.CurrentOrDefault(Some(e.source), e.defaultSource),
      D.CurrentOrDefault(Some(e.frequency), e.defaultFrequency),
      D.CurrentOrDefault(Some(e.power), e.defaultPower),
      D.CurrentOrDefault(Some(e.mode), e.defaultMode),
      None,
      ExportParameters(e.parameters))
  }

  /** An editor built by the constructors passes the export validation. */
  lemma ExportDeviceValid(e: D.DeviceEditor)
    requires e.Valid()
    ensures X.DeviceIsValid(ExportDevice(e))
  {
    var ps := ExportParameters(e.parameters);
    forall q <- ps
      ensures X.ParameterIsValid(q)
    {
      var k :| 0 <= k < |ps| && ps[k] == q;
      assert e.parameters[k].Valid();
    }
  }

  /** The export entries of the editors, one each, in order. */
  function ExportDevices(editors: seq<D.DeviceEditor>): (r: seq<X.ExportDeviceRequest>)
    ensures |r| == |editors| && forall k :: 0 <= k < |editors| ==> r[k] == ExportDevice(editors[k])
  {
    seq(|editors|, k requires 0 <= k < |editors| => ExportDevice(editors[k]))
  }

  /** Editors built by the constructors all give valid export entries. */
  lemma ExportDevicesValid(editors: seq<D.DeviceEditor>)
    requires forall k :: 0 <= k < |editors| ==> editors[k].Valid()
    ensures forall d <- ExportDevices(editors) :: X.DeviceIsValid(d)
  {
    var devices := ExportDevices(editors);
    forall d <- devices
      ensures X.DeviceIsValid(d)
    {
      var k :| 0 <= k < |devices| && devices[k] == d;
      ExportDeviceValid(editors[k]);
    }
  }

  /** `BuildExportRequest`: one device entry per editor, in order, none with
      a connection. */
  function BuildExportRequest(editors: seq<D.DeviceEditor>): (r: X.ExportConfigurationRequest)
    ensures |r.devices| == |editors|
    ensures forall k :: 0 <= k < |editors| ==> r.devices[k].name == editors[k].name && r.devices[k].connection.None?
  {
    X.ExportConfigurationRequest(ExportDevices(editors))
  }

  /** Editors built by the constructors always pass the export validation,
      so the page's request is valid exactly when the page has an editor. */
  lemma BuildExportRequestValid(editors: seq<D.DeviceEditor>)
    requires forall k :: 0 <= k < |editors| ==> editors[k].Valid()
    ensures X.RequestIsValid(BuildExportRequest(editors)) <==> |editors| > 0
  {
    ExportDevicesValid(editors);
  }

  /** With a trimmed default, the effective value is already normalised. */
  lemma CurrentOrDefaultNormalised(value: Option<string>, fallback: string)
    requires IsTrimmed(fallback)
    ensures IsNormalised(D.CurrentOrDefault(value, fallback))
  {
    if !IsNullOrWhiteSpace(value) {
      NullIfBlankIsNormalised(value);
    } else {
      TrimOfTrimmed(fallback);
    }
  }

  /** The export service normalises an editor's effective value to itself. */
  lemma EffectiveValueKept(value: Option<string>, fallback: string)
    requires IsTrimmed(fallback)
    ensures NullIfBlank(D.CurrentOrDefault(value, fallback)) == D.CurrentOrDefault(value, fallback)
  {
    CurrentOrDefaultNormalised(value, fallback);
    NormalisedFixed(D.CurrentOrDefault(value, fallback));
  }

  /** One valid parameter editor: the export service writes the same
      `<Parameter>` element for its export entry as the editor writes. */
  lemma ParameterElementAgrees(p: P.ParameterEditor)
    requires p.Valid()
    ensures CE.ParameterElement(ExportParameter(p)) == D.ParameterEntry(p)
  {
    var v := P.ValueOrDefault(p);
    if !IsBlank(v) {
      TrimOfTrimmed(p.name);
      TrimOfTrimmed(v);
      assert NullIfBlank(Some(v)) == Some(v);
      assert CE.ParameterNode(p.name, v) == D.ParameterEntry(p)[0];
    }
  }

  /** The export service's `<Parameter>` elements for the export entries of
      valid parameter editors are the editors' own, in order. */
  lemma {:induction false} ParameterElementsAgree(ps: seq<P.ParameterEditor>)
    requires forall k :: 0 <= k < |ps| ==> ps[k].Valid()
    ensures CE.ParameterElements(ExportParameters(ps)) == D.ParameterEntries(ps)
    decreases |ps|
  {
    if |ps| > 0 {
      var entries := ExportParameters(ps);
      assert entries[0] == ExportParameter(ps[0]) && entries[1..] == ExportParameters(ps[1..]);
      ParameterElementAgrees(ps[0]);
      ParameterElementsAgree(ps[1..]);
    }
  }

  /** Two `<Device>` elements say the same about a device, leaving its
      connection aside: the same name and source attributes, the same
      Frequency, Power and Mode texts and the same `<Parameter>` elements. */
  predicate SameDevice(x: Element, y: Element) {
    && AttributeValue(x.attributes, NameAttribute) == AttributeValue(y.attributes, NameAttribute)
    && AttributeValue(x.attributes, SourceAttribute) == AttributeValue(y.attributes, SourceAttribute)
    && ChildText(x, Frequency) == ChildText(y, Frequency)
    && ChildText(x, Power) == ChildText(y, Power)
    && ChildText(x, Mode) == ChildText(y, Mode)
    && Named(x.children, Parameter) == Named(y.children, Parameter)
  }

  /** The exported `<Device>` element of a valid editor says what the
      editor's own element says, but has no `<Connection>`, whatever the
      connection editor holds. */
  lemma ExportMatchesEditorXml(e: D.DeviceEditor)
    requires e.Valid()
    ensures SameDevice(CE.BuildDeviceElement(ExportDevice(e)), D.ToXElement(e))
    ensures Named(CE.BuildDeviceElement(ExportDevice(e)).children, Connection) == []
  {
    TrimOfTrimmed(e.name);
    EffectiveValueKept(Some(e.source), e.defaultSource);
    EffectiveValueKept(Some(e.frequency), e.defaultFrequency);
    EffectiveValueKept(Some(e.power), e.defaultPower);
    EffectiveValueKept(Some(e.mode), e.defaultMode);
    CE.DeviceReadBack(ExportDevice(e));
    D.ElementReadBack(e);
    ParameterElementsAgree(e.parameters);
  }

  /** Exporting a page with at least one editor, all built by the
      constructors, succeeds with the XML view's declaration, and the
      document holds one `<Device>` per editor, in the XML view's order,
      each saying what the XML view's element says and none with a
      `<Connection>`. */
  lemma ExportDocumentOfEditors(editors: seq<D.DeviceEditor>)
    requires |editors| > 0 && forall k :: 0 <= k < |editors| ==> editors[k].Valid()
    ensures CE.CreateDocument(Some(BuildExportRequest(editors))).Success?
    ensures var exported := CE.CreateDocument(Some(BuildExportRequest(editors))).value;
      var view := EditorsDocument(editors);
      && exported.declaration == view.declaration
      && exported.root.name == view.root.name
      && |exported.root.children| == |view.root.children|
      && forall k :: 0 <= k < |editors| ==>
        SameDevice(exported.root.children[k], view.root.children[k]) && Named(exported.root.children[k].children, Connection) == []
  {
    var request := BuildExportRequest(editors);
    BuildExportRequestValid(editors);
    var exported := CE.CreateDocument(Some(request)).value;
    forall k | 0 <= k < |editors|
      ensures SameDevice(exported.root.children[k], EditorsDocument(editors).root.children[k])
      ensures Named(exported.root.children[k].children, Connection) == []
    {
      assert request.devices[k] == ExportDevices(editors)[k];
      ExportMatchesEditorXml(editors[k]);
    }
  }

  /** `FormatDefault`: how a default is shown next to its field, the
      trimmed default or "None" when it is blank. */
  function FormatDefault(value: string): (r: string)
    ensures IsBlank(value) ==> r == "None"
    ensures !IsBlank(value) ==> r == Trim(value) && IsTrimmed(r) && !IsBlank(r)
  {
    if IsBlank(value) then "None" else TrimIsTrimmed(value); TrimmedBlankIsEmpty(value); Trim(value)
  }

  /** The shown default is what the export would send for a field left
      blank against that default, once trimmed, and "None" exactly when the
      export would leave the field out. */
  lemma FormatDefaultAgreesWithExport(current: string, value: string)
    requires IsBlank(current)
    ensures D.CurrentOrDefault(Some(current), value).None? ==> FormatDefault(value) == "None"
    ensures D.CurrentOrDefault(Some(current), value).Some? ==> FormatDefault(value) == Trim(D.CurrentOrDefault(Some(current), value).value)
  {
  }
}
