/** The port-expansion and cooling calculator: how many VXG, V-UXG and A-UXG
    units a lab needs for each channel scenario, and how many tons of cooling
    they and the lab floor require. */
module PortExpansion {
  import opened Wrappers
  import opened AnalysisContracts

  /** Heat output per unit, in BTU/hr (watts times 3.41). */
  const VxgBtuPerUnit: real := 5115.0   // 1500 W
  const VuxgBtuPerUnit: real := 2728.0  // 800 W
  const AuxgBtuPerUnit: real := 2046.0  // 600 W
  /** Tons of cooling per BTU/hr: 8.33333e-5, about 1/12000. */
  const TonsPerBtu: real := 0.0000833333
  /** Heat load of the lab floor, in BTU/hr per square foot. */
  const LabBtuPerSqft: real := 20.0
  /** Above this maximum played frequency a VXG chassis offers 2 ports, not 4. */
  const PortDensityThresholdGhz: real := 20.0

  function BtuToTons(btu: real): real {
    btu * TonsPerBtu
  }

  /** A value with at most two decimals. */
  predicate IsHundredths(r: real) {
    (r * 100.0).Floor as real == r * 100.0
  }

  /** `Math.Round(v, 2, MidpointRounding.AwayFromZero)` on exact reals: the
      nearest hundredth, a tie going away from zero. */
  function Round2(v: real): (r: real)
    ensures IsHundredths(r)
    ensures v >= 0.0 ==> -0.005 < r - v <= 0.005
    ensures v < 0.0 ==> -0.005 <= r - v < 0.005
  {
    if v >= 0.0 then
      var x := v * 100.0 + 0.5;
      var k := x.Floor;
      assert k as real <= x < k as real + 1.0;
      var r := k as real / 100.0;
      assert r * 100.0 == k as real;
      assert (r * 100.0).Floor == k;
      r
    else
      var x := -v * 100.0 + 0.5;
      var k := x.Floor;
      assert k as real <= x < k as real + 1.0;
      var r := -(k as real) / 100.0;
      assert r * 100.0 == -(k as real);
      assert (r * 100.0).Floor == -k;
      r
  }

  /** The contract of `Round2` determines it: any hundredth in the same
      half-open window around `v` is `Round2(v)`. */
  lemma Round2Unique(v: real, r: real)
    requires IsHundredths(r)
    requires v >= 0.0 ==> -0.005 < r - v <= 0.005
    requires v < 0.0 ==> -0.005 <= r - v < 0.005
    ensures r == Round2(v)
  {
    var a := (r * 100.0).Floor;
    var b := (Round2(v) * 100.0).Floor;
    assert -1.0 < (a - b) as real < 1.0;
  }

  /** Rounding is symmetric about zero. */
  lemma Round2Odd(v: real)
    ensures Round2(-v) == -Round2(v)
  {
    if v != 0.0 {
      var m := (Round2(v) * 100.0).Floor;
      assert (-Round2(v)) * 100.0 == (-m) as real;
      assert IsHundredths(-Round2(v));
      Round2Unique(-v, -Round2(v));
    }
  }

  /** A value that already has two decimals is left alone, so rounding twice
      is rounding once. */
  lemma Round2Fixes(v: real)
    requires IsHundredths(v)
    ensures Round2(v) == v
  {
    Round2Unique(v, v);
  }

  /** The midpoint rule: 1.005 rounds to 1.01 and -1.005 to -1.01. */
  lemma Round2HalfAwayFromZero()
    ensures Round2(1.005) == 1.01
    ensures Round2(-1.005) == -1.01
  {
    Round2Unique(1.005, 1.01);
    Round2Unique(-1.005, -1.01);
  }

  /** `(int)Math.Ceiling(n / (double)d)` for a positive divisor. */
  function CeilDiv(n: int, d: int): (q: int)
    requires d > 0
    ensures d * (q - 1) < n <= d * q
  {
    var f := (-n) / d;
    assert d * f <= -n < d * f + d;
    -f
  }

  /** Six receiver ports need three 2-port chassis or two 4-port chassis;
      eight need four or two. */
  lemma CeilDivSamples()
    ensures CeilDiv(6, 2) == 3 && CeilDiv(6, 4) == 2
    ensures CeilDiv(8, 2) == 4 && CeilDiv(8, 4) == 2
  {
    var a, b, c, e := CeilDiv(6, 2), CeilDiv(6, 4), CeilDiv(8, 2), CeilDiv(8, 4);
    assert 2 * (a - 1) < 6 <= 2 * a;
    assert 4 * (b - 1) < 6 <= 4 * b;
    assert 2 * (c - 1) < 8 <= 2 * c;
    assert 4 * (e - 1) < 8 <= 4 * e;
  }

  /** VXG ports per chassis: 2 above 20 GHz, 4 otherwise (exactly 20 GHz
      gives 4). */
  function PortsPerBox(maxFreqPlayedGhz: real): (n: int)
    ensures n == 2 || n == 4
    ensures n == 2 <==> maxFreqPlayedGhz > PortDensityThresholdGhz
  {
    if maxFreqPlayedGhz > PortDensityThresholdGhz then 2 else 4
  }

  /** The FDM bands that need receiver ports: all of them when FDM is present,
      none otherwise. */
  function FdmBandCount(bands: seq<FrequencyBand>, options: AnalysisOptions): (n: int)
    ensures options.fdmPresent ==> n == |bands|
    ensures !options.fdmPresent ==> n == 0
  {
    if options.fdmPresent then |bands| else 0
  }

  /** The VXG units needed: the receiver ports required, divided by the ports
      per chassis, rounded up. */
  function VxgUnits(maxFreqPlayedGhz: real, bands: seq<FrequencyBand>, options: AnalysisOptions): (u: int)
    ensures var ports := FdmBandCount(bands, options) * options.recPortCount;
      var box := PortsPerBox(maxFreqPlayedGhz);
      box * (u - 1) < ports <= box * u
  {
    CeilDiv(FdmBandCount(bands, options) * options.recPortCount, PortsPerBox(maxFreqPlayedGhz))
  }

  /** The scenario list, a null list read as empty. */
  function Channels(tdm: TdmUxgAnalysisResult): (c: seq<int>)
    ensures tdm.channels.None? ==> c == []
    ensures tdm.channels.Some? ==> c == tdm.channels.value
  {
    tdm.channels.GetOr([])
  }

  /** The summed heat output of a row's units, in BTU/hr. */
  function HardwareBtu(row: PortExpansionCoolingRow): real {
    row.numOfVxgUnits as real * VxgBtuPerUnit
    + row.numOfVuxg as real * VuxgBtuPerUnit
    + row.numOfAuxg as real * AuxgBtuPerUnit
  }

  /** The tonnages a row reports are those of its own unit counts: each part
      rounded separately, and the total rounded from the summed heat output
      rather than summed from the rounded parts. */
  predicate TonnagesMatchUnits(row: PortExpansionCoolingRow) {
    && row.vxgCoolingTons == Round2(BtuToTons(row.numOfVxgUnits as real * VxgBtuPerUnit))
    && row.vuxgCoolingTons == Round2(BtuToTons(row.numOfVuxg as real * VuxgBtuPerUnit))
    && row.auxgCoolingTons == Round2(BtuToTons(row.numOfAuxg as real * AuxgBtuPerUnit))
    && row.totalHwCoolingTons == Round2(BtuToTons(HardwareBtu(row)))
  }

  /** The row of one scenario: `vxgUnits` VXG units, `channel` times the
      receiver port count of V-UXG units, and `channel` A-UXG units. */
  function CoolingRow(vxgUnits: int, channel: int, recPortCount: int): (row: PortExpansionCoolingRow)
    ensures row.numOfVxgUnits == vxgUnits
    ensures row.numOfVuxg == channel * recPortCount
    ensures row.numOfAuxg == channel
    ensures TonnagesMatchUnits(row)
  {
    var numVuxg := channel * recPortCount;
    var numAuxg := channel;
    var vxgBtu := vxgUnits as real * VxgBtuPerUnit;
    var vuxgBtu := numVuxg as real * VuxgBtuPerUnit;
    var auxgBtu := numAuxg as real * AuxgBtuPerUnit;
    var hardwareBtu := vxgBtu + vuxgBtu + auxgBtu;
    PortExpansionCoolingRow(
      numOfVxgUnits := vxgUnits,
      vxgCoolingTons := Round2(BtuToTons(vxgBtu)),
      numOfVuxg := numVuxg,
      vuxgCoolingTons := Round2(BtuToTons(vuxgBtu)),
      numOfAuxg := numAuxg,
      auxgCoolingTons := Round2(BtuToTons(auxgBtu)),
      totalHwCoolingTons := Round2(BtuToTons(hardwareBtu)))
  }

  /** The lab floor's cooling load in tons, unrounded. */
  function LabTons(options: AnalysisOptions): real {
    BtuToTons(options.labWidthFt * options.labLengthFt * LabBtuPerSqft)
  }

  /** `ComputeAsync`. */
  function Compute(maxFreqPlayedGhz: real, tdm: TdmUxgAnalysisResult, bands: seq<FrequencyBand>, options: AnalysisOptions)
    : (r: PortExpansionResult)
    ensures |r.hardwareCooling| == |Channels(tdm)|
    ensures forall i :: 0 <= i < |r.hardwareCooling| ==>
      r.hardwareCooling[i] == CoolingRow(VxgUnits(maxFreqPlayedGhz, bands, options), Channels(tdm)[i], options.recPortCount)
    ensures r.summary.totalHwCoolingTons ==
      if |r.hardwareCooling| == 0 then 0.0 else r.hardwareCooling[|r.hardwareCooling| - 1].totalHwCoolingTons
    ensures r.summary.labSizeSqft == Round2(options.labWidthFt * options.labLengthFt)
    ensures r.summary.labCoolingReqTons == Round2(LabTons(options))
    ensures r.summary.totalOverallCoolingReqTons == Round2(r.summary.totalHwCoolingTons + LabTons(options))
  {
    var portsPerBox := PortsPerBox(maxFreqPlayedGhz);
    var numOfVxgUnits := VxgUnits(maxFreqPlayedGhz, bands, options);
    var channels := Channels(tdm);
    var rows := seq(|channels|, i requires 0 <= i < |channels| => CoolingRow(numOfVxgUnits, channels[i], options.recPortCount));
    var labSqft := options.labWidthFt * options.labLengthFt;
    var labTons := LabTons(options);
    var totalHwTons := if |rows| == 0 then 0.0 else rows[|rows| - 1].totalHwCoolingTons;
    Round2Fixes(totalHwTons);
    var hwTons := Round2(totalHwTons);
    var summary := PortExpansionCoolingSummary(
      totalHwCoolingTons := hwTons,
      labSizeSqft := Round2(labSqft),
      labCoolingReqTons := Round2(labTons),
      totalOverallCoolingReqTons := Round2(hwTons + labTons));
    PortExpansionResult(rows, summary)
  }

  /** Every row of one run reports the same VXG unit count. */
  lemma VxgUnitsConstantAcrossRows(maxFreqPlayedGhz: real, tdm: TdmUxgAnalysisResult, bands: seq<FrequencyBand>, options: AnalysisOptions)
    ensures var rows := Compute(maxFreqPlayedGhz, tdm, bands, options).hardwareCooling;
      forall i, j :: 0 <= i < |rows| && 0 <= j < |rows| ==> rows[i].numOfVxgUnits == rows[j].numOfVxgUnits
  {
  }

  /** Without FDM no receiver ports are needed, so no VXG units, whatever the
      band list. */
  lemma FdmAbsentNeedsNoVxg(maxFreqPlayedGhz: real, tdm: TdmUxgAnalysisResult, bands: seq<FrequencyBand>, options: AnalysisOptions)
    requires !options.fdmPresent
    ensures VxgUnits(maxFreqPlayedGhz, bands, options) == 0
    ensures forall row <- Compute(maxFreqPlayedGhz, tdm, bands, options).hardwareCooling :: row.numOfVxgUnits == 0
  {
    var u := VxgUnits(maxFreqPlayedGhz, bands, options);
    var box := PortsPerBox(maxFreqPlayedGhz);
    assert box * (u - 1) < 0 <= box * u;
  }

  /** With no scenarios there are no rows, no hardware load, and the overall
      requirement is the lab load alone. */
  lemma NoScenariosNoHardware(maxFreqPlayedGhz: real, tdm: TdmUxgAnalysisResult, bands: seq<FrequencyBand>, options: AnalysisOptions)
    requires tdm.channels.None? || tdm.channels.value == []
    ensures var r := Compute(maxFreqPlayedGhz, tdm, bands, options);
      r.hardwareCooling == [] && r.summary.totalHwCoolingTons == 0.0
      && r.summary.totalOverallCoolingReqTons == Round2(LabTons(options))
  {
    var r := Compute(maxFreqPlayedGhz, tdm, bands, options);
    assert r.summary.totalHwCoolingTons + LabTons(options) == LabTons(options);
  }

  /** The last scenario wins: for scenarios [4, 8] the summary carries the
      tonnage of the 8-channel row (12.28), not that of the 4-channel row
      (6.14) nor their sum. */
  lemma LastScenarioWins(maxFreqPlayedGhz: real, bands: seq<FrequencyBand>, options: AnalysisOptions)
    requires options.recPortCount == 6 && !options.fdmPresent
    ensures var r := Compute(maxFreqPlayedGhz, TdmUxgAnalysisResult(Some([4, 8])), bands, options);
      && r.summary.totalHwCoolingTons == r.hardwareCooling[1].totalHwCoolingTons == 12.28
      && r.hardwareCooling[0].totalHwCoolingTons == 6.14
  {
    FdmAbsentNeedsNoVxg(maxFreqPlayedGhz, TdmUxgAnalysisResult(Some([4, 8])), bands, options);
    Round2Unique(BtuToTons(48.0 * VuxgBtuPerUnit + 8.0 * AuxgBtuPerUnit), 12.28);
    Round2Unique(BtuToTons(24.0 * VuxgBtuPerUnit + 4.0 * AuxgBtuPerUnit), 6.14);
  }

  /** The default lab of 40 ft by 100 ft: 4000 square feet, 80000 BTU/hr,
      6.67 tons. */
  lemma DefaultLabCooling()
    ensures var o := DefaultOptions();
      o.labWidthFt * o.labLengthFt == 4000.0
      && Round2(LabTons(o)) == 6.67
  {
    Round2Unique(LabTons(DefaultOptions()), 6.67);
  }

  /** The first row of a default run (32 channels, 6 receiver ports, 3 VXG
      units): 1.28, 43.65 and 5.46 tons for the parts and 50.38 tons in all,
      although the rounded parts add up to 50.39. */
  lemma TotalIsNotSumOfParts()
    ensures var row := CoolingRow(3, 32, 6);
      && row.vxgCoolingTons == 1.28 && row.vuxgCoolingTons == 43.65 && row.auxgCoolingTons == 5.46
      && row.totalHwCoolingTons == 50.38
      && row.vxgCoolingTons + row.vuxgCoolingTons + row.auxgCoolingTons != row.totalHwCoolingTons
  {
    Round2Unique(BtuToTons(3.0 * VxgBtuPerUnit), 1.28);
    Round2Unique(BtuToTons(192.0 * VuxgBtuPerUnit), 43.65);
    Round2Unique(BtuToTons(32.0 * AuxgBtuPerUnit), 5.46);
    Round2Unique(BtuToTons(3.0 * VxgBtuPerUnit + 192.0 * VuxgBtuPerUnit + 32.0 * AuxgBtuPerUnit), 50.38);
  }
}
