/** The machine description that the distributor pushes to remote agents.
    Only the agent list is read by the modelled code; the other parts are
    carried as data. */
module MachineConfiguration {
  import opened Wrappers

  /** A remote agent: its id, transport protocol ("http", "grpc" or custom),
      endpoint and optional API key. */
  datatype AgentAddress = AgentAddress(id: string, protocol: string, endpoint: string, apiKey: Option<string>)

  datatype MachineIdentity = MachineIdentity(name: string, location: string, version: string)

  datatype MachineNetwork = MachineNetwork(agents: seq<AgentAddress>)

  datatype FdmConfig = FdmConfig(present: bool, numberOfVirtualChannels: int, maxPowerDb: real)

  datatype LabConfig = LabConfig(widthFt: real, lengthFt: real)

  datatype PlaybackConfig = PlaybackConfig(maxFreqPlayedGhz: real, recPortCount: int, randomizeShadowTime: bool, bufferTimePs: int)

  datatype MachineFrequencyBand = MachineFrequencyBand(minMHz: real, centerMHz: real, maxMHz: real)

  datatype MachineConfig = MachineConfig(
    identity: MachineIdentity,
    network: MachineNetwork,
    fdm: FdmConfig,
    lab: LabConfig,
    playback: PlaybackConfig,
    bands: seq<MachineFrequencyBand>)
}
