/** `ConfigurationOrchestrator`: run the four analysis stages in sequence and
    return the FDM, TDM/UXG and port-expansion results of the run. */
module ConfigurationOrchestrator {
  import opened Wrappers
  import opened AnalysisContracts
  import FrequencyAnalysis
  import FdmBandAnalysis
  import TdmUxgAnalysis
  import PortExpansion

  /** The four injected stages, as the functions they compute. */
  datatype Stages = Stages(
    freq: AnalysisOptions -> seq<FrequencyBand>,
    fdm: (seq<FrequencyBand>, AnalysisOptions) -> FdmAnalysisResult,
    tdm: (FdmAnalysisResult, AnalysisOptions) -> TdmUxgAnalysisResult,
    ports: (real, TdmUxgAnalysisResult, seq<FrequencyBand>, AnalysisOptions) -> PortExpansionResult)

  /** The result triple of one run. */
  datatype RunResult = RunResult(fdm: FdmAnalysisResult, tdm: TdmUxgAnalysisResult, ports: PortExpansionResult)

  /** `RunAsync`: frequency, then FDM on the frequency bands, then TDM/UXG on
      the FDM result, then port expansion on the maximum played frequency, the
      TDM/UXG result and the frequency bands (not the FDM statistics). */
  function Run(stages: Stages, options: AnalysisOptions): (r: RunResult)
    ensures var bands := stages.freq(options);
      && r.fdm == stages.fdm(bands, options)
      && r.tdm == stages.tdm(r.fdm, options)
      && r.ports == stages.ports(options.maxFreqPlayedGhz, r.tdm, bands, options)
  {
    var bands := stages.freq(options);
    var fdmResult := stages.fdm(bands, options);
    var tdmResult := stages.tdm(fdmResult, options);
    var portResult := stages.ports(options.maxFreqPlayedGhz, tdmResult, bands, options);
    RunResult(fdmResult, tdmResult, portResult)
  }

  /** The stage implementations the service registers. */
  function Shipped(): Stages {
    Stages(
      FrequencyAnalysis.Analyze,
      FdmBandAnalysis.Analyze,
      TdmUxgAnalysis.Analyze,
      PortExpansion.Compute)
  }

  /** With the shipped stages the FDM result has one band (the single
      frequency band, numbered 1) and the port result has five rows, one per
      channel scenario 32, 24, 16, 8, 4. */
  lemma ShippedRunShape(options: AnalysisOptions)
    ensures var r := Run(Shipped(), options);
      && |r.fdm.bands| == 1 && r.fdm.bands[0].bandNumber == 1
      && r.fdm.bands[0].centerMHz == 1750.0
      && |r.ports.hardwareCooling| == 5
      && r.ports.hardwareCooling[0].numOfAuxg == 32
      && r.ports.hardwareCooling[4].numOfAuxg == 4
  {
    var bands := FrequencyAnalysis.Analyze(options);
    var fdm := FdmBandAnalysis.Analyze(bands, options);
    var tdm := TdmUxgAnalysis.Analyze(fdm, options);
    assert PortExpansion.Channels(tdm) == [32, 24, 16, 8, 4];
  }

  /** With the shipped stages and default options the maximum played frequency
      of 40 GHz gives 2 ports per VXG chassis, so the 6 receiver ports of the
      single band need 3 VXG units in every row. */
  lemma ShippedDefaultVxgUnits()
    ensures var r := Run(Shipped(), DefaultOptions());
      forall row <- r.ports.hardwareCooling :: row.numOfVxgUnits == 3
  {
    var o := DefaultOptions();
    var u := PortExpansion.VxgUnits(o.maxFreqPlayedGhz, FrequencyAnalysis.Analyze(o), o);
    assert PortExpansion.PortsPerBox(o.maxFreqPlayedGhz) == 2;
    assert 2 * (u - 1) < 6 <= 2 * u;
  }
}
