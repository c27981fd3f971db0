/** The three placeholder stages upstream of the port-expansion calculator.
    Each returns fixed figures; what matters is their exact shape. */

module FrequencyAnalysis {
  import opened AnalysisContracts

  /** `AnalyzeAsync`: a single band from 500 MHz to 3000 MHz, centred at
      1750 MHz, whatever the options. */
  function Analyze(options: AnalysisOptions): (bands: seq<FrequencyBand>)
    ensures |bands| == 1
    ensures bands[0].minMHz == 500.0 && bands[0].centerMHz == 1750.0 && bands[0].maxMHz == 3000.0
    ensures bands[0].WellFormed()
  {
    var min := 500.0;
    [FrequencyBand(min, min + 1250.0, min + 2500.0)]
  }

  /** The stub's output does not depend on the options. */
  lemma AnalyzeIgnoresOptions(a: AnalysisOptions, b: AnalysisOptions)
    ensures Analyze(a) == Analyze(b)
  {
  }
}

module FdmBandAnalysis {
  import opened AnalysisContracts

  /** The placeholder per-band throughput figures. */
  const PulsesAssignedPerBand: int := 100000
  const PulsesDroppedPerBand: int := 2500
  /** The placeholder count of pulses overflowing to the TDM/UXG path. */
  const PulsesToTdmUxg: int := 250000
  /** Per-band cap on virtual channels used. */
  const MaxVcUsedCap: int := 6

  /** Percentage of assigned pulses that were dropped; 0 when nothing was
      assigned, so there is no division by zero. */
  function DropPercent(assignedPulses: int, droppedPulses: int): (p: real)
    ensures assignedPulses == 0 ==> p == 0.0
    ensures assignedPulses != 0 ==> p * (assignedPulses as real) == 100.0 * (droppedPulses as real)
  {
    if assignedPulses == 0 then 0.0 else (droppedPulses as real) / (assignedPulses as real) * 100.0
  }

  /** The statistics of one band, numbered `number`. */
  function BandStats(b: FrequencyBand, number: int, options: AnalysisOptions): (s: FdmBandStats)
    ensures s.bandNumber == number
    ensures s.minMHz == b.minMHz && s.centerMHz == b.centerMHz && s.maxMHz == b.maxMHz
    ensures s.vcAvailable == options.numberOfVirtualChannels
    ensures s.maxVcUsed <= s.vcAvailable && s.maxVcUsed <= MaxVcUsedCap
    ensures s.maxVcUsed == s.vcAvailable || s.maxVcUsed == MaxVcUsedCap
    ensures s.pulsesPlayed + s.pulsesDropped == s.pulsesAssigned
    ensures s.pulsesAssigned == PulsesAssignedPerBand && s.pulsesDropped == PulsesDroppedPerBand
  {
    var assignedPulses := PulsesAssignedPerBand;
    var droppedPulses := PulsesDroppedPerBand;
    FdmBandStats(
      bandNumber := number,
      minMHz := b.minMHz,
      centerMHz := b.centerMHz,
      maxMHz := b.maxMHz,
      vcAvailable := options.numberOfVirtualChannels,
      maxVcUsed := if options.numberOfVirtualChannels < MaxVcUsedCap then options.numberOfVirtualChannels else MaxVcUsedCap,
      pulsesAssigned := assignedPulses,
      pulsesPlayed := assignedPulses - droppedPulses,
      pulsesDropped := droppedPulses,
      pulseDropPercent := DropPercent(assignedPulses, droppedPulses))
  }

  /** `AnalyzeAsync`: one statistics entry per input band, in input order,
      numbered from 1, each copying its band's frequencies. */
  function Analyze(bands: seq<FrequencyBand>, options: AnalysisOptions): (r: FdmAnalysisResult)
    ensures |r.bands| == |bands|
    ensures forall i :: 0 <= i < |bands| ==> r.bands[i] == BandStats(bands[i], i + 1, options)
    ensures r.pulsesToTdmUxg == PulsesToTdmUxg
  {
    FdmAnalysisResult(seq(|bands|, i requires 0 <= i < |bands| => BandStats(bands[i], i + 1, options)), PulsesToTdmUxg)
  }

  /** The drop percentage of every band is 2.5 %. */
  lemma DropPercentIsTwoAndAHalf(bands: seq<FrequencyBand>, options: AnalysisOptions)
    ensures forall i :: 0 <= i < |bands| ==> Analyze(bands, options).bands[i].pulseDropPercent == 2.5
  {
    assert DropPercent(PulsesAssignedPerBand, PulsesDroppedPerBand) == 2.5;
  }

  /** Band numbers run 1, 2, ..., n, so they are distinct and increasing. */
  lemma BandNumbersIncrease(bands: seq<FrequencyBand>, options: AnalysisOptions)
    ensures forall i, j :: 0 <= i < j < |bands| ==>
      Analyze(bands, options).bands[i].bandNumber < Analyze(bands, options).bands[j].bandNumber
  {
  }
}

module TdmUxgAnalysis {
  import opened Wrappers
  import opened AnalysisContracts

  /** `AnalyzeAsync`: the fixed scenario list [32, 24, 16, 8, 4]. */
  function Analyze(fdm: FdmAnalysisResult, options: AnalysisOptions): (r: TdmUxgAnalysisResult)
    ensures r.channels == Some([32, 24, 16, 8, 4])
  {
    TdmUxgAnalysisResult(Some([32, 24, 16, 8, 4]))
  }

  /** The scenarios are strictly descending and all positive. */
  lemma ChannelsDescendingAndPositive(fdm: FdmAnalysisResult, options: AnalysisOptions)
    ensures var c := Analyze(fdm, options).channels.value;
      (forall i, j :: 0 <= i < j < |c| ==> c[i] > c[j]) && (forall i :: 0 <= i < |c| ==> c[i] > 0)
  {
  }

  /** The stub's output depends on neither the FDM result nor the options. */
  lemma AnalyzeIgnoresInputs(f1: FdmAnalysisResult, o1: AnalysisOptions, f2: FdmAnalysisResult, o2: AnalysisOptions)
    ensures Analyze(f1, o1) == Analyze(f2, o2)
  {
  }
}
