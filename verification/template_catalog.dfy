/** `DeviceEditorTemplateCatalog`: the four device editors the page starts
    with. Each seed entry is written down as data and built through the
    editors' constructors; the lemmas show that every construction succeeds
    and what it yields. */
module TemplateCatalog {
  import opened Wrappers
  import opened Text
  import opened DomainModels
  import P = ParameterEditors
  import C = ConnectionEditors
  import D = DeviceEditors

  /** One seed entry: the device's name, its default settings, the
      connection editor's defaults and the parameters with their defaults. */
  datatype Seed = Seed(
    name: string,
    source: string, frequency: string, power: string, mode: string,
    protocol: string, host: string, port: string,
    parameters: seq<DeviceParameter>)

  const PulseArb: Seed := Seed("Pulse Arb", "ARB-A", "1.200GHz", "-10dBm", "FDM", "HiSLIP", "192.168.0.20", "4880",
    [DeviceParameter("WAVE:TYPE", "SINE"), DeviceParameter("WAVE:FREQ", "1kHz"), DeviceParameter("WAVE:AMPL", "1.0")])

  const NoiseSource: Seed := Seed("Noise Source", "NOISE-A", "500MHz", "-30dBm", "NOISE", "HiSLIP", "192.168.0.30", "4881",
    [DeviceParameter("NOISE:BAND", "20MHz"), DeviceParameter("NOISE:SHAP", "FLAT")])

  const VectorSource: Seed := Seed("Vector Source", "VEC-A", "2.400GHz", "0dBm", "IQ", "HiSLIP", "192.168.0.40", "4880",
    [DeviceParameter("ARB:FILE", "LTE-REF"), DeviceParameter("ARB:SRAT", "61.44Msps")])

  const CalibrationReference: Seed := Seed("Calibration Reference", "CAL-REF", "1GHz", "-3dBm", "CW", "TCPIP-SOCKET", "192.168.0.50", "5025",
    [DeviceParameter("OUTP:STAT", "ON")])

  /** The seed entries, in the order the page lists them. */
  const Seeds: seq<Seed> := [PulseArb, NoiseSource, VectorSource, CalibrationReference]

  /** A parameter the constructors keep as written: a non-blank trimmed name
      and a trimmed default. */
  predicate ParameterWellFormed(p: DeviceParameter) {
    p.name != [] && IsTrimmed(p.name) && IsTrimmed(p.value)
  }

  /** A seed the constructors keep as written: every text is non-blank and
      has no surrounding whitespace. */
  predicate WellFormed(s: Seed) {
    && s.name != [] && IsTrimmed(s.name)
    && IsTrimmed(s.source) && IsTrimmed(s.frequency) && IsTrimmed(s.power) && IsTrimmed(s.mode)
    && s.protocol != [] && IsTrimmed(s.protocol)
    && s.host != [] && IsTrimmed(s.host)
    && s.port != [] && IsTrimmed(s.port)
    && forall k :: 0 <= k < |s.parameters| ==> ParameterWellFormed(s.parameters[k])
  }

  /** A trimmed string with at least one character is not blank, and the
      normalisation keeps it as it is. */
  lemma KeptAsWritten(s: string)
    requires s != [] && IsTrimmed(s)
    ensures !IsBlank(s) && NullIfBlank(Some(s)) == Some(s)
  {
    TrimOfTrimmed(s);
    assert !IsWhiteSpace(s[0]);
  }

  /** A trimmed default is kept as it is. */
  lemma DefaultKept(s: string)
    requires IsTrimmed(s)
    ensures TrimOrEmpty(Some(s)) == s
  {
    TrimOfTrimmed(s);
  }

  /** The connection editor a seed builds. */
  function SeedConnection(s: Seed): C.ConnectionEditor {
    C.NewConnectionEditor(Some(s.protocol), Some(s.host), Some(s.port))
  }

  /** A seed's connection editor starts at the seed's protocol, host and
      port. */
  lemma SeedConnectionKeepsFields(s: Seed)
    requires s.protocol != [] && IsTrimmed(s.protocol) && s.host != [] && IsTrimmed(s.host) && s.port != [] && IsTrimmed(s.port)
    ensures SeedConnection(s).defaultProtocol == s.protocol && SeedConnection(s).protocol == s.protocol
    ensures SeedConnection(s).defaultHost == s.host && SeedConnection(s).host == s.host
    ensures SeedConnection(s).defaultPort == s.port && SeedConnection(s).port == s.port
  {
    KeptAsWritten(s.protocol);
    KeptAsWritten(s.host);
    KeptAsWritten(s.port);
  }

  /** One template: the parameter editors, then the device editor with the
      seed's defaults and connection. */
  function Build(s: Seed): Result<D.DeviceEditor> {
    var editors :- D.NewEditors(s.parameters);
    Construct(s, editors)
  }

  /** The parameter editors built from well-formed parameters carry their
      names and defaults unchanged. */
  lemma ParametersKept(ps: seq<DeviceParameter>)
    requires forall k :: 0 <= k < |ps| ==> ParameterWellFormed(ps[k])
    ensures D.NewEditors(ps).Success?
    ensures forall k :: 0 <= k < |ps| ==>
      D.NewEditors(ps).value[k].name == ps[k].name && D.NewEditors(ps).value[k].defaultValue == ps[k].value
  {
    forall k | 0 <= k < |ps|
      ensures !IsBlank(ps[k].name) && NullIfBlank(Some(ps[k].name)) == Some(ps[k].name) && TrimOrEmpty(Some(ps[k].value)) == ps[k].value
    {
      KeptAsWritten(ps[k].name);
      DefaultKept(ps[k].value);
    }
  }

  /** The device editor constructor on a seed, given its parameter
      editors. */
  function Construct(s: Seed, editors: seq<P.ParameterEditor>): Result<D.DeviceEditor> {
    D.NewDeviceEditor(s.name, Some(s.source), Some(s.frequency), Some(s.power), Some(s.mode), Some(D.Present(editors)), Some(SeedConnection(s)))
  }

  /** The constructor keeps a well-formed seed's name and defaults, and the
      editors and connection it is given. */
  lemma ConstructKeepsSeed(s: Seed, editors: seq<P.ParameterEditor>)
    requires s.name != [] && IsTrimmed(s.name)
    requires IsTrimmed(s.source) && IsTrimmed(s.frequency) && IsTrimmed(s.power) && IsTrimmed(s.mode)
    ensures Construct(s, editors).Success?
    ensures Construct(s, editors).value.name == s.name
    ensures Construct(s, editors).value.defaultSource == s.source && Construct(s, editors).value.defaultFrequency == s.frequency
    ensures Construct(s, editors).value.defaultPower == s.power && Construct(s, editors).value.defaultMode == s.mode
    ensures Construct(s, editors).value.connection == SeedConnection(s)
    ensures Construct(s, editors).value.parameters == editors
  {
    D.CopyAllPresent(editors);
    KeptAsWritten(s.name);
    DefaultKept(s.source);
    DefaultKept(s.frequency);
    DefaultKept(s.power);
    DefaultKept(s.mode);
  }

  /** A well-formed seed builds, and the editor holds exactly the seed's
      name, defaults, connection and parameters. */
  lemma BuildKeepsSeed(s: Seed)
    requires WellFormed(s)
    ensures Build(s).Success?
    ensures Build(s).value.name == s.name
    ensures Build(s).value.defaultSource == s.source && Build(s).value.defaultFrequency == s.frequency
    ensures Build(s).value.defaultPower == s.power && Build(s).value.defaultMode == s.mode
    ensures Build(s).value.connection == SeedConnection(s)
    ensures |Build(s).value.parameters| == |s.parameters|
    ensures forall k :: 0 <= k < |s.parameters| ==>
      Build(s).value.parameters[k].name == s.parameters[k].name && Build(s).value.parameters[k].defaultValue == s.parameters[k].value
  {
    ParametersKept(s.parameters);
    var editors := D.NewEditors(s.parameters).value;
    ConstructKeepsSeed(s, editors);
    assert Build(s) == Construct(s, editors);
  }

  lemma PulseArbWellFormed()
    ensures WellFormed(PulseArb)
  {
    assert ParameterWellFormed(PulseArb.parameters[0]);
    assert ParameterWellFormed(PulseArb.parameters[1]);
    assert ParameterWellFormed(PulseArb.parameters[2]);
  }

  lemma NoiseSourceWellFormed()
    ensures WellFormed(NoiseSource)
  {
    assert ParameterWellFormed(NoiseSource.parameters[0]);
    assert ParameterWellFormed(NoiseSource.parameters[1]);
  }

  lemma VectorSourceWellFormed()
    ensures WellFormed(VectorSource)
  {
    assert ParameterWellFormed(VectorSource.parameters[0]);
    assert ParameterWellFormed(VectorSource.parameters[1]);
  }

  lemma CalibrationReferenceWellFormed()
    ensures WellFormed(CalibrationReference)
  {
    assert ParameterWellFormed(CalibrationReference.parameters[0]);
  }

  /** Every seed is well formed. */
  lemma SeedsWellFormed()
    ensures forall k :: 0 <= k < |Seeds| ==> WellFormed(Seeds[k])
  {
    PulseArbWellFormed();
    NoiseSourceWellFormed();
    VectorSourceWellFormed();
    CalibrationReferenceWellFormed();
  }

  /** `CreateDefaultEditors`: one editor per seed, in order; no constructor
      throws. */
  function CreateDefaultEditors(): (r: seq<D.DeviceEditor>)
    ensures |r| == |Seeds| == 4
    ensures forall k :: 0 <= k < |Seeds| ==> Build(Seeds[k]) == Success(r[k])
  {
    SeedsWellFormed();
    forall k | 0 <= k < |Seeds| {
      BuildKeepsSeed(Seeds[k]);
    }
    seq(|Seeds|, k requires 0 <= k < |Seeds| => Build(Seeds[k]).value)
  }

  /** Each default editor holds its seed: its name, defaults, connection and
      parameters. */
  lemma DefaultEditorKeepsSeed(k: nat)
    requires k < 4
    ensures CreateDefaultEditors()[k].name == Seeds[k].name
    ensures CreateDefaultEditors()[k].connection == SeedConnection(Seeds[k])
    ensures |CreateDefaultEditors()[k].parameters| == |Seeds[k].parameters|
    ensures forall j :: 0 <= j < |Seeds[k].parameters| ==>
      && CreateDefaultEditors()[k].parameters[j].name == Seeds[k].parameters[j].name
      && CreateDefaultEditors()[k].parameters[j].defaultValue == Seeds[k].parameters[j].value
  {
    SeedsWellFormed();
    BuildKeepsSeed(Seeds[k]);
  }

  /** The editors are, in order, Pulse Arb, Noise Source, Vector Source and
      Calibration Reference. */
  lemma DefaultEditorNames()
    ensures |CreateDefaultEditors()| == 4
    ensures CreateDefaultEditors()[0].name == "Pulse Arb"
    ensures CreateDefaultEditors()[1].name == "Noise Source"
    ensures CreateDefaultEditors()[2].name == "Vector Source"
    ensures CreateDefaultEditors()[3].name == "Calibration Reference"
  {
    DefaultEditorKeepsSeed(0);
    DefaultEditorKeepsSeed(1);
    DefaultEditorKeepsSeed(2);
    DefaultEditorKeepsSeed(3);
  }

  /** Four editors named with the four seed names have names pairwise
      different ignoring case: the names differ in length. */
  lemma SeedNamesDistinct(r: seq<D.DeviceEditor>)
    requires |r| == 4 && |r[0].name| == 9 && |r[1].name| == 12 && |r[2].name| == 13 && |r[3].name| == 21
    ensures forall i, j :: 0 <= i < j < |r| ==> !EqualsIgnoreCase(r[i].name, r[j].name)
  {
    forall i, j | 0 <= i < j < 4 {
      LengthsDiffer(r[i].name, r[j].name);
    }
  }

  /** No two default editors have names equal ignoring case. */
  lemma DefaultNamesDistinct()
    ensures forall i, j :: 0 <= i < j < |CreateDefaultEditors()| ==>
      !EqualsIgnoreCase(CreateDefaultEditors()[i].name, CreateDefaultEditors()[j].name)
  {
    DefaultEditorNames();
    SeedNamesDistinct(CreateDefaultEditors());
  }

  /** The first editor is Pulse Arb with its defaults and three parameter
      editors. */
  lemma FirstEditorDefaults()
    ensures CreateDefaultEditors()[0].name == "Pulse Arb"
    ensures CreateDefaultEditors()[0].defaultSource == "ARB-A"
    ensures CreateDefaultEditors()[0].defaultFrequency == "1.200GHz"
    ensures CreateDefaultEditors()[0].defaultPower == "-10dBm"
    ensures CreateDefaultEditors()[0].defaultMode == "FDM"
    ensures |CreateDefaultEditors()[0].parameters| == 3
  {
    PulseArbWellFormed();
    BuildKeepsSeed(PulseArb);
  }

  /** Every default editor has a connection host, so each writes a
      `<Connection>` element. */
  lemma DefaultHostsPresent()
    ensures forall k :: 0 <= k < 4 ==> !IsBlank(CreateDefaultEditors()[k].connection.host)
  {
    SeedsWellFormed();
    forall k | 0 <= k < 4
      ensures !IsBlank(CreateDefaultEditors()[k].connection.host)
    {
      DefaultEditorKeepsSeed(k);
      SeedConnectionKeepsFields(Seeds[k]);
      KeptAsWritten(Seeds[k].host);
    }
  }

  /** The test's signature of an editor: its parameters as name=default,
      joined with ';'. */
  function Signature(e: D.DeviceEditor): (r: string)
    ensures |e.parameters| > 0 && |e.parameters[0].name| > 0 ==> |r| > 0 && r[0] == e.parameters[0].name[0]
  {
    var pieces := seq(|e.parameters|, k requires 0 <= k < |e.parameters| => e.parameters[k].name + "=" + e.parameters[k].defaultValue);
    if |pieces| == 0 then []
    else
      JoinStartsWithFirst(pieces, ';');
      Join(pieces, ';')
  }

  /** A join starts with its first piece. */
  lemma JoinStartsWithFirst(pieces: seq<string>, sep: char)
    requires |pieces| >= 1
    ensures pieces[0] <= Join(pieces, sep)
  {
  }

  /** The first parameter of each default editor. */
  lemma FirstParameterNames()
    ensures |CreateDefaultEditors()[0].parameters| > 0 && CreateDefaultEditors()[0].parameters[0].name == "WAVE:TYPE"
    ensures |CreateDefaultEditors()[1].parameters| > 0 && CreateDefaultEditors()[1].parameters[0].name == "NOISE:BAND"
    ensures |CreateDefaultEditors()[2].parameters| > 0 && CreateDefaultEditors()[2].parameters[0].name == "ARB:FILE"
    ensures |CreateDefaultEditors()[3].parameters| > 0 && CreateDefaultEditors()[3].parameters[0].name == "OUTP:STAT"
  {
    DefaultEditorKeepsSeed(0);
    DefaultEditorKeepsSeed(1);
    DefaultEditorKeepsSeed(2);
    DefaultEditorKeepsSeed(3);
  }

  /** The first letter of an editor's first parameter, when it has one. */
  function Initial(e: D.DeviceEditor): Option<char> {
    if |e.parameters| > 0 && |e.parameters[0].name| > 0 then Some(e.parameters[0].name[0]) else None
  }

  /** Editors whose first parameters begin with different letters have
      different signatures. */
  lemma SignaturesDiffer(a: D.DeviceEditor, b: D.DeviceEditor)
    requires Initial(a).Some? && Initial(b).Some? && Initial(a) != Initial(b)
    ensures Signature(a) != Signature(b)
  {
  }

  /** Four editors whose first parameters are those of the catalog have
      pairwise different signatures. */
  lemma CatalogSignaturesDiffer(r: seq<D.DeviceEditor>)
    requires |r| == 4
    requires |r[0].parameters| > 0 && r[0].parameters[0].name == "WAVE:TYPE"
    requires |r[1].parameters| > 0 && r[1].parameters[0].name == "NOISE:BAND"
    requires |r[2].parameters| > 0 && r[2].parameters[0].name == "ARB:FILE"
    requires |r[3].parameters| > 0 && r[3].parameters[0].name == "OUTP:STAT"
    ensures forall i, j :: 0 <= i < j < |r| ==> Signature(r[i]) != Signature(r[j])
  {
    assert Initial(r[0]) == Some('W') && Initial(r[1]) == Some('N');
    assert Initial(r[2]) == Some('A') && Initial(r[3]) == Some('O');
    forall i, j | 0 <= i < j < 4 {
      SignaturesDiffer(r[i], r[j]);
    }
  }

  /** No two default editors share a parameter signature. */
  lemma DefaultSignaturesDistinct()
    ensures forall i, j :: 0 <= i < j < |CreateDefaultEditors()| ==>
      Signature(CreateDefaultEditors()[i]) != Signature(CreateDefaultEditors()[j])
  {
    FirstParameterNames();
    CatalogSignaturesDiffer(CreateDefaultEditors());
  }
}
