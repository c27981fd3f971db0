/** The records exchanged by the lab-analysis pipeline: the run options and
    the results of the frequency, FDM, TDM/UXG and port-expansion stages.

    C# `double` fields are exact `real`s here and C# `int`/`long` fields are
    unbounded `int`s.
 */
module AnalysisContracts {
  import opened Wrappers

  /** Input parameters of one pipeline run (the MATLAB script's inputs). */
  datatype AnalysisOptions = AnalysisOptions(
    sectionBandwidthMHz: real,
    ppsFdmAssign: int,
    fdmPresent: bool,
    randomizeShadowTime: bool,
    bufferTimePs: int,
    numberOfVirtualChannels: int,
    maxFdmPowerDb: real,
    maxChanAvail: int,
    tdmEnabled: bool,
    uxgEnabled: bool,
    recPortCount: int,
    labWidthFt: real,
    labLengthFt: real,
    maxFreqPlayedGhz: real)

  /** The options a freshly constructed `AnalysisOptions` carries. */
  function DefaultOptions(): (o: AnalysisOptions)
    ensures o.recPortCount == 6 && o.fdmPresent && o.numberOfVirtualChannels == 8
    ensures o.labWidthFt == 40.0 && o.labLengthFt == 100.0 && o.maxFreqPlayedGhz == 40.0
    ensures o.sectionBandwidthMHz == 50.0 && o.ppsFdmAssign == 15000 && o.bufferTimePs == 20000
    ensures o.randomizeShadowTime && !o.tdmEnabled && o.uxgEnabled
    ensures o.maxFdmPowerDb == -5.0 && o.maxChanAvail == 1000
  {
    AnalysisOptions(
      sectionBandwidthMHz := 50.0,
      ppsFdmAssign := 15000,
      fdmPresent := true,
      randomizeShadowTime := true,
      bufferTimePs := 20000,
      numberOfVirtualChannels := 8,
      maxFdmPowerDb := -5.0,
      maxChanAvail := 1000,
      tdmEnabled := false,
      uxgEnabled := true,
      recPortCount := 6,
      labWidthFt := 40.0,
      labLengthFt := 100.0,
      maxFreqPlayedGhz := 40.0)
  }

  /** A frequency band as (minimum, centre, maximum), in MHz. */
  datatype FrequencyBand = FrequencyBand(minMHz: real, centerMHz: real, maxMHz: real) {
    /** The band's centre lies between its edges. */
    predicate WellFormed() {
      minMHz <= centerMHz <= maxMHz
    }
  }

  /** Per-band pulse statistics produced by the FDM stage. */
  datatype FdmBandStats = FdmBandStats(
    bandNumber: int,
    minMHz: real,
    centerMHz: real,
    maxMHz: real,
    vcAvailable: int,
    maxVcUsed: int,
    pulsesAssigned: int,
    pulsesPlayed: int,
    pulsesDropped: int,
    pulseDropPercent: real)

  datatype FdmAnalysisResult = FdmAnalysisResult(bands: seq<FdmBandStats>, pulsesToTdmUxg: int)

  /** The channel-count scenarios; the list reference may be null. */
  datatype TdmUxgAnalysisResult = TdmUxgAnalysisResult(channels: Option<seq<int>>)

  /** Cooling figures for one channel scenario: three unit counts and four
      tonnages. */
  datatype PortExpansionCoolingRow = PortExpansionCoolingRow(
    numOfVxgUnits: int,
    vxgCoolingTons: real,
    numOfVuxg: int,
    vuxgCoolingTons: real,
    numOfAuxg: int,
    auxgCoolingTons: real,
    totalHwCoolingTons: real)

  datatype PortExpansionCoolingSummary = PortExpansionCoolingSummary(
    totalHwCoolingTons: real,
    labSizeSqft: real,
    labCoolingReqTons: real,
    totalOverallCoolingReqTons: real)

  /** One row per scenario plus a single summary. */
  datatype PortExpansionResult = PortExpansionResult(
    hardwareCooling: seq<PortExpansionCoolingRow>,
    summary: PortExpansionCoolingSummary)
}
