# ConfigSetup and ConfigurationService in Dafny

A model of the sequential logic of the ConfigSetup web tool and of the
ConfigurationService lab-analysis back end, with proofs of what that logic
promises.

- **Lab-analysis pipeline.**
  - The frequency, FDM and TDM/UXG placeholder stages.
  - The port-expansion and cooling calculator. Tonnage is exact `real`; rounding is half away from zero.
  - The orchestrator that chains the stages.
  - The configuration distributor, which tries its pushers in order for each agent.
- **SCPI and OpenTAP.**
  - The SCPI command generator.
  - The OpenTAP sequence parser: plain text, and JSON read over a small JSON tree.
  - The sequence value object and the sequence executor's address selection.
  - The instrument execution context and result.
- **Domain values and validators.**
  - The normalising constructors of devices, connections and hardware configurations.
  - The export and source-upload request validators.
  - The simulated upload service's totals.
  - The export service's element tree, modelled as `Xml.Element`.
- **Editor state.**
  - The parameter, connection and device editor view models, including the VISA resource string.
  - The template catalog.
  - The two workspace tab states.
  - The pure parts of the `Home` page: menus, alert banners, the custom command box, applying a configuration to the editors, and building the upload and export requests.

.NET exceptions are returned as `Failure` values of `Wrappers.Result`, and a C# `null` is `None`. Mutable classes are values: each mutator returns the updated object. Where a loop can throw after part of its work is done, the result is `Wrappers.Applied`, which holds the state reached and the exception.

Three behaviours of the code are modelled exactly as written:
- **VXG ports per chassis.** The port count per chassis is 2 when the maximum frequency played is above 20 GHz and 4 otherwise (PortExpansionService.cs:16-17). With the default 40 GHz maximum that gives 2 ports per chassis. `PortExpansion.PortsPerBox` states this.
- **Colon-containing SCPI parameter names.** Such a name is emitted without the source prefix (ScpiCommandGenerator.cs:43-45), while the generator test expects `SOUR1:WAVE:TYPE SINE` (ScpiCommandGeneratorTests.cs:36). `ScpiGeneration.ColonParameterIsNotPrefixed` states the behaviour as written.
- **No connection in the export request.** The `Home` page's export request carries no connection (Home.razor.cs:331-359), although the page's XML view writes each editor's `<Connection>`. `PageExport.ExportMatchesEditorXml` states that the two documents agree on everything else.

The OpenTAP JSON reader is also modelled as written: a property read on an element that is not an object throws, as System.Text.Json's `TryGetProperty` does. `OpenTapParser.Parse` follows that reading. A second, guarded reading, in which such a read finds nothing, is modelled alongside as `OpenTapParser.ParseGuarded`. It is what the reader's string and array branches evidently intend (see "## Findings"), and `OpenTapParser.ParseGuardedAgrees` shows that it changes no result the code as written produces.

## Model

| member | source | states |
|---|---|---|
| AnalysisContracts.DefaultOptions | ConfigurationService.Contracts/AnalysisOptions.cs:6-19 | a fresh options object carries the MATLAB script's defaults: 50 MHz sections, 15000 pulses per FDM assignment, FDM present, 8 virtual channels, -5 dB, 1000 channels, TDM off, UXG on, 6 recorder ports, a 40 ft by 100 ft lab, 40 GHz |
| FrequencyAnalysis.Analyze | ConfigurationService.Infrastructure/Services/FrequencyAnalysisService.cs:8-16 | the placeholder frequency stage yields exactly one band, 500 to 3000 MHz centred at 1750 MHz, whose centre lies between its edges |
| FrequencyAnalysis.AnalyzeIgnoresOptions | ConfigurationService.Infrastructure/Services/FrequencyAnalysisService.cs:8-16 | the frequency stage's output does not depend on the options |
| FdmBandAnalysis.DropPercent | ConfigurationService.Infrastructure/Services/FdmBandAnalysisService.cs:18 | the drop percentage times the assigned count is 100 times the dropped count, and it is 0 when nothing was assigned |
| FdmBandAnalysis.BandStats | ConfigurationService.Infrastructure/Services/FdmBandAnalysisService.cs:15-29 | a band's statistics copy its frequencies, report the configured virtual channels, use at most min(channels, 6) of them, and played plus dropped equals assigned |
| FdmBandAnalysis.Analyze | ConfigurationService.Infrastructure/Services/FdmBandAnalysisService.cs:8-35 | one statistics entry per input band, in order, numbered from 1, and 250000 pulses passed on to TDM/UXG |
| FdmBandAnalysis.DropPercentIsTwoAndAHalf | ConfigurationService.Infrastructure/Services/FdmBandAnalysisService.cs:15-18 | every band reports a 2.5 % drop rate |
| FdmBandAnalysis.BandNumbersIncrease | ConfigurationService.Infrastructure/Services/FdmBandAnalysisService.cs:11-20 | band numbers strictly increase along the list |
| TdmUxgAnalysis.Analyze | ConfigurationService.Infrastructure/Services/TdmUxgAnalysisService.cs:8-14 | the placeholder TDM/UXG stage yields exactly the channel scenarios 32, 24, 16, 8 and 4, in that order |
| TdmUxgAnalysis.ChannelsDescendingAndPositive | ConfigurationService.Infrastructure/Services/TdmUxgAnalysisService.cs:12 | the scenarios are strictly descending and all positive |
| TdmUxgAnalysis.AnalyzeIgnoresInputs | ConfigurationService.Infrastructure/Services/TdmUxgAnalysisService.cs:8-14 | the scenarios depend on neither the FDM result nor the options |
| PortExpansion.Round2 | ConfigurationService.Infrastructure/Services/PortExpansionService.cs:89 | rounding to two decimals gives a hundredth within half a hundredth of the value, a tie going away from zero |
| PortExpansion.Round2Unique | ConfigurationService.Infrastructure/Services/PortExpansionService.cs:89 | that window determines the rounded value: any hundredth in it is the rounded value |
| PortExpansion.Round2Odd | ConfigurationService.Infrastructure/Services/PortExpansionService.cs:89 | rounding away from zero is symmetric: rounding -v gives minus the rounding of v |
| PortExpansion.Round2Fixes | ConfigurationService.Infrastructure/Services/PortExpansionService.cs:80 | a value that already has two decimals is left unchanged, so re-rounding the last row's total changes nothing |
| PortExpansion.Round2HalfAwayFromZero | ConfigurationService.Infrastructure/Services/PortExpansionService.cs:89 | the midpoint 1.005 rounds to 1.01 and -1.005 to -1.01 |
| PortExpansion.CeilDiv | ConfigurationService.Infrastructure/Services/PortExpansionService.cs:25 | the rounded-up quotient q is the least q with n <= d * q |
| PortExpansion.CeilDivSamples | ConfigurationService.Infrastructure/Services/PortExpansionService.cs:25 | six ports need three 2-port or two 4-port chassis; eight need four or two |
| PortExpansion.PortsPerBox | ConfigurationService.Infrastructure/Services/PortExpansionService.cs:17 | a chassis offers 2 ports exactly when the played frequency exceeds 20 GHz, 4 otherwise |
| PortExpansion.FdmBandCount | ConfigurationService.Infrastructure/Services/PortExpansionService.cs:19 | every band counts when FDM is present, none otherwise |
| PortExpansion.VxgUnits | ConfigurationService.Infrastructure/Services/PortExpansionService.cs:17-25 | the VXG unit count is the fewest chassis whose ports cover bands times receiver ports |
| PortExpansion.Channels | ConfigurationService.Infrastructure/Services/PortExpansionService.cs:28 | a null scenario list reads as empty, otherwise as itself |
| PortExpansion.CoolingRow | ConfigurationService.Infrastructure/Services/PortExpansionService.cs:46-67 | a scenario's row has channel times receiver-port V-UXG units and channel A-UXG units, and each tonnage is the rounded conversion of its own units' heat, the total rounded from the summed heat |
| PortExpansion.Compute | ConfigurationService.Infrastructure/Services/PortExpansionService.cs:8-86 | one row per scenario in input order; the summary's hardware load is the last row's total or 0, and the lab size, lab load and overall load are rounded from their exact values |
| PortExpansion.VxgUnitsConstantAcrossRows | ConfigurationService.Infrastructure/Services/PortExpansionService.cs:25-60 | every row of a run reports the same VXG unit count |
| PortExpansion.FdmAbsentNeedsNoVxg | ConfigurationService.Infrastructure/Services/PortExpansionService.cs:19-25 | without FDM no VXG units are needed, whatever the bands |
| PortExpansion.NoScenariosNoHardware | ConfigurationService.Infrastructure/Services/PortExpansionService.cs:76-83 | with no scenarios there are no rows, no hardware load, and the overall load is the lab load |
| PortExpansion.LastScenarioWins | ConfigurationService.Infrastructure/Services/PortExpansionService.cs:76 | the summary carries the last row's total (12.28 tons for scenarios 4 then 8), not the first row's nor the sum |
| PortExpansion.DefaultLabCooling | ConfigurationService.Infrastructure/Services/PortExpansionService.cs:71-82 | the default 40 ft by 100 ft lab is 4000 square feet needing 6.67 tons |
| PortExpansion.TotalIsNotSumOfParts | ConfigurationService.Infrastructure/Services/PortExpansionService.cs:49-66 | for 3 VXG units and 32 channels the parts round to 1.28, 43.65 and 5.46 tons but the total to 50.38, not their sum 50.39 |
| ConfigurationOrchestrator.Run | ConfigurationService.Infrastructure/Services/ConfigurationOrchestrator.cs:25-34 | a run feeds the frequency bands to the FDM stage, the FDM result to the TDM/UXG stage, and the maximum played frequency, the TDM/UXG result and the frequency bands (not the FDM statistics) to the port calculator |
| ConfigurationOrchestrator.ShippedRunShape | ConfigurationService.Infrastructure/Services/ConfigurationOrchestrator.cs:29-33 | with the registered stages a run reports one FDM band numbered 1 at 1750 MHz and five cooling rows from 32 down to 4 A-UXG units |
| ConfigurationOrchestrator.ShippedDefaultVxgUnits | ConfigurationService.Infrastructure/Services/PortExpansionService.cs:17-25 | with default options the 40 GHz maximum gives 2-port chassis, so every row needs 3 VXG units |
| ConfigDistribution.TryPush | ConfigurationService.Infrastructure/Services/ConfigDistributor.cs:35-39 | a push counts exactly when the pusher accepts; a thrown exception counts as not accepted |
| ConfigDistribution.PushAgent | ConfigurationService.Infrastructure/Services/ConfigDistributor.cs:21-29 | an agent is pushed exactly when some pusher accepts it; pushers are tried in order and trying stops at the first acceptance |
| ConfigDistribution.Attempted | ConfigurationService.Infrastructure/Services/ConfigDistributor.cs:19 | the attempted agents are exactly those the filter admits, or all agents without a filter |
| ConfigDistribution.AttemptedAppend | ConfigurationService.Infrastructure/Services/ConfigDistributor.cs:19 | the agents attempted from two lists in a row are those of the first list followed by those of the second: the filter keeps the network's order |
| ConfigDistribution.AttemptedMultiset | ConfigurationService.Infrastructure/Services/ConfigDistributor.cs:19 | every agent the filter admits is attempted as often as it occurs in the network, and every other agent never |
| ConfigDistribution.Distribute | ConfigurationService.Infrastructure/Services/ConfigDistributor.cs:13-33 | the result map equals the reference map built agent by agent, its keys being exactly the attempted agents' ids |
| ConfigDistribution.ResultsKeys | ConfigurationService.Infrastructure/Services/ConfigDistributor.cs:30 | the result map's keys are the attempted agents' ids |
| ConfigDistribution.ResultsLastWins | ConfigurationService.Infrastructure/Services/ConfigDistributor.cs:30 | for a repeated id the entry holds the outcome of the last agent with that id |
| ConfigDistribution.NoPushersAllFalse | ConfigurationService.Infrastructure/Services/ConfigDistributor.cs:21-30 | with no pushers registered every attempted agent is reported false |
| DomainModels.NewInstrumentConnection | src/ConfigSetup.Domain/Models/InstrumentConnection.cs:10-26 | each of protocol, host and port is null when blank and trimmed otherwise |
| DomainModels.ConnectionNormaliseIdempotent | src/ConfigSetup.Domain/Models/InstrumentConnection.cs:23-26 | normalising a connection's own fields again gives the same connection |
| DomainModels.NewDeviceConfiguration | src/ConfigSetup.Domain/Models/DeviceConfiguration.cs:16-34 | a blank name throws ArgumentException; otherwise the name is kept untrimmed, the four settings are null when blank and trimmed otherwise, a null parameter list becomes empty and the connection is stored as given |
| DomainModels.DeviceRoundTrip | src/ConfigSetup.Domain/Models/DeviceConfiguration.cs:16-34 | rebuilding a valid device from its own fields gives it back |
| DomainModels.NewHardwareConfiguration | src/ConfigSetup.Domain/Models/HardwareConfiguration.cs:16-25 | a null list throws ArgumentNullException, an empty one ArgumentException with its message; otherwise the devices are kept in order |
| Instrumentation.NewExecutionContext | src/ConfigSetup.Application/Instrumentation/InstrumentExecutionContext.cs:10-19 | a blank address throws with its message; otherwise the address is trimmed and the sequence name is null when blank and trimmed otherwise |
| Instrumentation.ContextRoundTrip | src/ConfigSetup.Application/Instrumentation/InstrumentExecutionContext.cs:10-19 | a valid context rebuilt from its own fields is unchanged |
| Instrumentation.NewExecutionResult | src/ConfigSetup.Application/Instrumentation/InstrumentExecutionResult.cs:10-27 | a blank address throws first, then a negative count; a negative duration becomes zero; address, count and name are stored verbatim |
| Instrumentation.ExecutionResultRoundTrip | src/ConfigSetup.Application/Instrumentation/InstrumentExecutionResult.cs:24 | a stored result rebuilt from its own fields is unchanged, since clamping is idempotent |
| ScpiGeneration.SourcePrefix | src/ConfigSetup.Application/Scpi/ScpiCommandGenerator.cs:29 | a device's prefix is its trimmed source, or SOUR1 when the source is blank, and never blank |
| ScpiGeneration.CommandIfPresent | src/ConfigSetup.Application/Scpi/ScpiCommandGenerator.cs:55-63 | a setting yields a command exactly when its value is not blank, namely "source:command value" trimmed, which is never blank |
| ScpiGeneration.ParameterLine | src/ConfigSetup.Application/Scpi/ScpiCommandGenerator.cs:43-45 | a parameter whose name contains a colon is written "name value", any other "source:name value" |
| ScpiGeneration.ParameterCommand | src/ConfigSetup.Application/Scpi/ScpiCommandGenerator.cs:36-47 | a parameter yields a command exactly when neither its trimmed name nor its trimmed value is blank, built from the trimmed name and value, never blank |
| ScpiGeneration.ParameterCommands | src/ConfigSetup.Application/Scpi/ScpiCommandGenerator.cs:34-48 | a device's parameters give at most one command each |
| ScpiGeneration.DeviceCommands | src/ConfigSetup.Application/Scpi/ScpiCommandGenerator.cs:29-48 | a device gives at most its three settings' commands plus one per parameter |
| ScpiGeneration.Emitting | src/ConfigSetup.Application/Scpi/ScpiCommandGenerator.cs:36-41 | the parameters that give a command are parameters of the device, each with a non-blank name and value |
| ScpiGeneration.Present | src/ConfigSetup.Application/Scpi/ScpiCommandGenerator.cs:57-60 | the settings that give a command are the device's settings with a non-blank value |
| ScpiGeneration.ParameterCommandsExact | src/ConfigSetup.Application/Scpi/ScpiCommandGenerator.cs:34-48 | the parameter commands are exactly one per parameter whose trimmed name and value are not blank, in parameter order, each that parameter's command |
| ScpiGeneration.SettingsOfDevice | src/ConfigSetup.Application/Scpi/ScpiCommandGenerator.cs:30-32 | the settings are visited in the order FREQ:CW, POW, MODE |
| ScpiGeneration.SettingsCommandsExact | src/ConfigSetup.Application/Scpi/ScpiCommandGenerator.cs:55-63 | a list of settings gives one command per present setting, in order, each "source:command value" trimmed |
| ScpiGeneration.DeviceCommandsLayout | src/ConfigSetup.Application/Scpi/ScpiCommandGenerator.cs:29-48 | a device's commands are first one per present setting, in the order FREQ:CW, POW, MODE, and then one per emitting parameter, in parameter order |
| ScpiGeneration.DeviceCommandsCount | src/ConfigSetup.Application/Scpi/ScpiCommandGenerator.cs:29-48 | a device gives exactly as many commands as it has present settings plus parameters that give a command |
| ScpiGeneration.Generate | src/ConfigSetup.Application/Scpi/ScpiCommandGenerator.cs:22-53 | a null configuration throws ArgumentNullException; otherwise the commands are those of the devices, device after device |
| ScpiGeneration.AllCommandsBound | src/ConfigSetup.Application/Scpi/ScpiCommandGenerator.cs:27-48 | a configuration yields at most three commands per device plus one per parameter |
| ScpiGeneration.AllCommandsAppend | src/ConfigSetup.Application/Scpi/ScpiCommandGenerator.cs:27 | splitting the device list splits the command list at the same place |
| ScpiGeneration.ParameterCommandsNotBlank | src/ConfigSetup.Application/Scpi/ScpiCommandGenerator.cs:34-48 | no parameter command is blank |
| ScpiGeneration.DeviceCommandsNotBlank | src/ConfigSetup.Application/Scpi/ScpiCommandGenerator.cs:29-48 | no command of a device is blank |
| ScpiGeneration.AllCommandsNotBlank | src/ConfigSetup.Application/Scpi/ScpiCommandGenerator.cs:22-53 | no generated command is blank |
| ScpiGeneration.ColonParameterIsNotPrefixed | src/ConfigSetup.Application/Scpi/ScpiCommandGenerator.cs:43-44 | WAVE:TYPE=SINE on source SOUR1 is emitted as "WAVE:TYPE SINE", without the prefix |
| ScpiGeneration.FrequencyCommandIsPrefixed | tests/ConfigSetup.Tests/Scpi/ScpiCommandGeneratorTests.cs:33 | the frequency 1.2GHz on source SOUR1 is emitted as "SOUR1:FREQ:CW 1.2GHz" |
| OpenTapSequences.Executable | src/ConfigSetup.Application/OpenTap/OpenTapSequence.cs:17 | the kept commands are exactly the non-blank ones of the input |
| OpenTapSequences.ExecutableAppend | src/ConfigSetup.Application/OpenTap/OpenTapSequence.cs:17 | filtering distributes over concatenation, so kept commands keep their relative order |
| OpenTapSequences.ExecutableKeepsNoneBlank | src/ConfigSetup.Application/OpenTap/OpenTapSequence.cs:17 | a list without blank commands is kept whole |
| OpenTapSequences.NewSequence | src/ConfigSetup.Application/OpenTap/OpenTapSequence.cs:14-27 | a null list throws ArgumentNullException; construction succeeds exactly when some command is not blank, else InvalidOperationException with its message; name and resource are null when blank and trimmed otherwise |
| OpenTapSequences.SequenceRoundTrip | src/ConfigSetup.Application/OpenTap/OpenTapSequence.cs:14-27 | a valid sequence rebuilt from its own fields is unchanged |
| OpenTapExecution.ChosenAddress | src/ConfigSetup.Application/OpenTap/OpenTapSequenceExecutor.cs:28-30 | the sequence's own address when not blank, else the fallback, so never blank when the fallback is not |
| OpenTapExecution.Execute | src/ConfigSetup.Application/OpenTap/OpenTapSequenceExecutor.cs:20-34 | a blank fallback throws before parsing; a parse failure propagates; otherwise the executor receives a valid context with the chosen address trimmed and the sequence name, and exactly the parsed commands |
| OpenTapExecution.BlankFallbackIgnoresParser | src/ConfigSetup.Application/OpenTap/OpenTapSequenceExecutor.cs:22-27 | with a blank fallback the outcome does not depend on the parser |
| OpenTapExecution.ExecuteUsesSequenceFields | src/ConfigSetup.Application/OpenTap/OpenTapSequenceExecutor.cs:28-32 | for a constructed sequence the context carries its own name, and its own resource or else the trimmed fallback |
| OpenTapParser.Classify | src/ConfigSetup.Application/OpenTap/OpenTapSequenceParser.cs:152-176 | a blank line is ignored; a command is the trimmed line, never blank and never a '#' comment; directives are recognised by the case-insensitive prefixes name=, resource= and resource: |
| OpenTapParser.LineCommands | src/ConfigSetup.Application/OpenTap/OpenTapSequenceParser.cs:176 | a line contributes at most one command, never blank |
| OpenTapParser.ReadLineEffect | src/ConfigSetup.Application/OpenTap/OpenTapSequenceParser.cs:152-176 | one line appends exactly its own command, and changes the name or resource only through a directive |
| OpenTapParser.ReadLinesCommands | src/ConfigSetup.Application/OpenTap/OpenTapSequenceParser.cs:150-177 | the loop keeps every command line, in order, after the commands gathered before |
| OpenTapParser.ReadLinesName | src/ConfigSetup.Application/OpenTap/OpenTapSequenceParser.cs:158-162 | the loop ends with the last name directive's value, or the earlier name when there is none |
| OpenTapParser.ReadLinesResource | src/ConfigSetup.Application/OpenTap/OpenTapSequenceParser.cs:164-174 | the loop ends with the last resource directive's value, either spelling, or the earlier resource when there is none |
| OpenTapParser.LineCommandsNotBlank | src/ConfigSetup.Application/OpenTap/OpenTapSequenceParser.cs:153-176 | no gathered command is blank |
| OpenTapParser.Gather | src/ConfigSetup.Application/OpenTap/OpenTapSequenceParser.cs:146-177 | from nothing, the loop gathers every command line in order and the last name and resource directives |
| OpenTapParser.ParsePlainText | src/ConfigSetup.Application/OpenTap/OpenTapSequenceParser.cs:144-180 | plain text split on newlines gives a sequence exactly when some line is a command, holding those commands and the last directives; otherwise InvalidOperationException |
| OpenTapParser.PlainCommands | src/ConfigSetup.Application/OpenTap/OpenTapSequenceParser.cs:150-176 | the command lines of plain-text content, none blank |
| OpenTapParser.Parse | src/ConfigSetup.Application/OpenTap/OpenTapSequenceParser.cs:15-26 | blank content throws ArgumentException; trimmed content opening with '{' or '[' goes to the JSON reader as written (malformed text throws JsonException), anything else to the plain-text reader; any sequence returned is valid |
| OpenTapParser.ParseGuarded | src/ConfigSetup.Application/OpenTap/OpenTapSequenceParser.cs:15-26 | the same dispatch with the guarded JSON reader; any sequence returned is valid |
| OpenTapParser.ParseGuardedAgrees | src/ConfigSetup.Application/OpenTap/OpenTapSequenceParser.cs:15-43 | whatever content the parser as written reads, the guarded parser reads to the same sequence, and whatever the guarded parser rejects, the parser as written rejects too |
| OpenTapParser.ArrayContentThrows | src/ConfigSetup.Application/OpenTap/OpenTapSequenceParser.cs:22-40 | content whose trimmed text is a JSON array always throws as written; the guarded parser reads it exactly when its items give some command |
| JsonTree.LastIndexOf | src/ConfigSetup.Application/OpenTap/OpenTapSequenceParser.cs:60 | property lookup finds a member with that key, with no later member of the same key, and finds nothing exactly when no member has the key |
| JsonTree.Lookup | src/ConfigSetup.Application/OpenTap/OpenTapSequenceParser.cs:139 | a property value is found exactly when some member carries the key, and it is that member's value |
| JsonTree.LookupLastWins | src/ConfigSetup.Application/OpenTap/OpenTapSequenceParser.cs:139 | a repeated property name resolves to its last definition |
| JsonTree.LookupSkipsOthers | src/ConfigSetup.Application/OpenTap/OpenTapSequenceParser.cs:139 | members under other names never change what a key resolves to |
| JsonTree.TryGetProperty | src/ConfigSetup.Application/OpenTap/OpenTapSequenceParser.cs:60-68 | reading a property of anything but an object throws InvalidOperationException naming the kinds; on an object it gives the looked-up value |
| JsonTree.GetString | src/ConfigSetup.Application/OpenTap/OpenTapSequenceParser.cs:88-96 | a string element gives its text, a null gives null, and every other kind throws |
| OpenTapJson.Property | src/ConfigSetup.Application/OpenTap/OpenTapSequenceParser.cs:60-76 | as written a property read on a non-object throws; guarded it finds nothing; otherwise it finds the object's value |
| OpenTapJson.TryGetString | src/ConfigSetup.Application/OpenTap/OpenTapSequenceParser.cs:127-142 | a string element is its own text whatever the key; an object gives its property only when that property is a string; every other case gives null and nothing throws |
| OpenTapJson.Name | src/ConfigSetup.Application/OpenTap/OpenTapSequenceParser.cs:33 | the sequence name is the "name" string when there is one, otherwise the "title" string |
| OpenTapJson.Resource | src/ConfigSetup.Application/OpenTap/OpenTapSequenceParser.cs:104-125 | a "resource" string wins; otherwise an "instrument" property's "resource", then its "address"; an object root never throws, while as written any other root without a resource throws |
| OpenTapJson.TextCommands | src/ConfigSetup.Application/OpenTap/OpenTapSequenceParser.cs:89-100 | a text becomes exactly one command of that text unless it is blank, and then none |
| OpenTapJson.OwnCommands | src/ConfigSetup.Application/OpenTap/OpenTapSequenceParser.cs:86-101 | a string element contributes its own text; an object contributes its "text" string, throwing when that property is neither a string nor null; nothing else contributes |
| OpenTapJson.StepsCommands | src/ConfigSetup.Application/OpenTap/OpenTapSequenceParser.cs:68-84 | a "steps" value that is not an array throws when enumerated; no step command is blank |
| OpenTapJson.ParseJson | src/ConfigSetup.Application/OpenTap/OpenTapSequenceParser.cs:28-43 | a resource failure comes first, then a command failure, then "does not declare any SCPI commands" for an empty list; success exactly when none of these, with the extracted commands in order and the name and resource normalised |
| OpenTapJson.ScalarCommands | src/ConfigSetup.Application/OpenTap/OpenTapSequenceParser.cs:60-93 | as written every string, number, boolean or null element throws at the first property read, so the string branch never runs; guarded, a string is its own command |
| OpenTapJson.ArrayRootThrows | src/ConfigSetup.Application/OpenTap/OpenTapSequenceParser.cs:34-111 | as written, a document whose root is an array always throws in the resource lookup |
| OpenTapJson.ArrayRootCommands | src/ConfigSetup.Application/OpenTap/OpenTapSequenceParser.cs:22-40 | guarded, an array root is read exactly when its items give some command, and its commands are theirs, in order |
| OpenTapJson.CommandListOfStrings | src/ConfigSetup.Application/OpenTap/OpenTapSequenceParser.cs:47-93 | the document {"commands": ["*RST"]} throws as written and yields the single command *RST when guarded |
| OpenTapJson.CommandsAgree | src/ConfigSetup.Application/OpenTap/OpenTapSequenceParser.cs:45-102 | wherever the code as written extracts commands, the guarded extraction gives the same commands |
| OpenTapJson.StepCommandsAgree | src/ConfigSetup.Application/OpenTap/OpenTapSequenceParser.cs:72-82 | wherever a step's commands are read as written, the guarded reading gives the same commands |
| OpenTapJson.Found | src/ConfigSetup.Application/OpenTap/OpenTapSequenceParser.cs:60-76 | a property lookup finds the member of that name on an object and nothing on any other element, and what it finds is part of the element |
| OpenTapJson.Commands | src/ConfigSetup.Application/OpenTap/OpenTapSequenceParser.cs:45-102 | no extracted command is blank |
| OpenTapJson.ItemCommands | src/ConfigSetup.Application/OpenTap/OpenTapSequenceParser.cs:47-56 | no command extracted from an array's items is blank |
| OpenTapJson.StepItemCommands | src/ConfigSetup.Application/OpenTap/OpenTapSequenceParser.cs:68-84 | no command extracted from a "steps" array is blank |
| OpenTapJson.StepCommands | src/ConfigSetup.Application/OpenTap/OpenTapSequenceParser.cs:72-82 | no command extracted from a step is blank |
| OpenTapJson.ThenAssociative | src/ConfigSetup.Application/OpenTap/OpenTapSequenceParser.cs:45-102 | reading three parts in a row gives the same result however they are grouped |
| OpenTapJson.ItemCommandsAppend | src/ConfigSetup.Application/OpenTap/OpenTapSequenceParser.cs:47-56 | the items of two lists in a row are read as the first list, then the second: the first list's failure, else the second's, else the first's commands followed by the second's |
| OpenTapJson.StepItemCommandsAppend | src/ConfigSetup.Application/OpenTap/OpenTapSequenceParser.cs:68-84 | the steps of two lists in a row are read the same way, first list first |
| OpenTapJson.ObjectCommandsLayout | src/ConfigSetup.Application/OpenTap/OpenTapSequenceParser.cs:60-101 | an object's commands are those under "commands", then those of its "steps", then its own "text", and the first part that throws ends the reading with its exception |
| OpenTapJson.StepCommandsChoice | src/ConfigSetup.Application/OpenTap/OpenTapSequenceParser.cs:72-82 | a step with a non-blank "command" string gives that command alone, whatever its "scpi" property holds; any other step object gives the commands of its "scpi" property, or nothing without one |
| OpenTapJson.ParseJsonAgrees | src/ConfigSetup.Application/OpenTap/OpenTapSequenceParser.cs:28-43 | every document the code as written parses, the guarded reading parses to the same sequence |
| ExportContracts.ParameterError | src/ConfigSetup.Web/Contracts/ExportConfigurationRequest.cs:96-102 | a parameter is rejected exactly when its name is blank, with "Parameter entries must include a name." |
| ExportContracts.ConnectionError | src/ConfigSetup.Web/Contracts/ExportConfigurationRequest.cs:73-84 | a connection is accepted exactly when it has an address or is wholly blank; otherwise "When a connection is provided, an address is required." |
| ExportContracts.DeviceError | src/ConfigSetup.Web/Contracts/ExportConfigurationRequest.cs:46-59 | a device is accepted exactly when its name, every parameter and its connection are valid; a blank name is reported first, then a bad parameter, then the connection |
| ExportContracts.RequestError | src/ConfigSetup.Web/Contracts/ExportConfigurationRequest.cs:13-24 | a request is accepted exactly when it has a device and every device is valid; no device gives "At least one device is required…", otherwise the first invalid device's error is reported |
| ExportContracts.BlankConnectionIsValid | src/ConfigSetup.Web/Contracts/ExportConfigurationRequest.cs:75-78 | a connection with blank address, protocol and port passes |
| ExportContracts.AddresslessConnectionIsInvalid | src/ConfigSetup.Web/Contracts/ExportConfigurationRequest.cs:80-83 | a protocol or port without an address is rejected |
| ConfigurationExport.Normalize | src/ConfigSetup.Web/Services/ConfigurationExportService.cs:105-108 | a missing or blank value normalises to the empty string, any other value to its non-blank trim |
| ConfigurationExport.ChildElement | src/ConfigSetup.Web/Services/ConfigurationExportService.cs:59-68 | a text child is added exactly when the value is not blank, and holds the normalised value |
| ConfigurationExport.ConnectionNode | src/ConfigSetup.Web/Services/ConfigurationExportService.cs:86-102 | the protocol attribute, Address child and Port child are present exactly when they have a value, and read back as that value |
| ConfigurationExport.ConnectionElement | src/ConfigSetup.Web/Services/ConfigurationExportService.cs:70-84 | a missing or wholly blank connection adds nothing; otherwise exactly one Connection element |
| ConfigurationExport.ConnectionReadBack | src/ConfigSetup.Web/Services/ConfigurationExportService.cs:77-100 | reading the Connection element back gives each value trimmed, and nothing for the blank ones |
| ConfigurationExport.ParameterElement | src/ConfigSetup.Web/Services/ConfigurationExportService.cs:44-53 | a parameter with a blank value exports nothing; otherwise one Parameter element with the trimmed name and value |
| ConfigurationExport.ParameterElementsExact | src/ConfigSetup.Web/Services/ConfigurationExportService.cs:42-54 | every Parameter element comes from one parameter, and every parameter with a value contributes its element |
| ConfigurationExport.Valued | src/ConfigSetup.Web/Services/ConfigurationExportService.cs:45-48 | the parameters kept are exactly those with a non-blank value |
| ConfigurationExport.ParameterElementsCount | src/ConfigSetup.Web/Services/ConfigurationExportService.cs:42-54 | there are exactly as many Parameter elements as parameters with a value |
| ConfigurationExport.BuildDeviceElement | src/ConfigSetup.Web/Services/ConfigurationExportService.cs:26-34 | a Device element carries the trimmed name, and the source attribute exactly when the source is not blank |
| ConfigurationExport.DeviceReadBack | src/ConfigSetup.Web/Services/ConfigurationExportService.cs:36-54 | reading a Device element back gives the non-blank trimmed frequency, power and mode, the connection element and the parameter elements |
| ConfigurationExport.CreateDocument | src/ConfigSetup.Web/Services/ConfigurationExportService.cs:14-24 | a missing request throws ArgumentNullException; it succeeds exactly when validation passes and otherwise fails with validation's error; the document has the 1.0/utf-8/yes declaration and one Device per device, in order |
| ConfigurationExport.ExportedNamesAreTrimmed | src/ConfigSetup.Web/Services/ConfigurationExportService.cs:18-28 | each exported device carries the trimmed name of the device at its position, which is never empty |
| SourceUpload.ParameterError | src/ConfigSetup.Web/Contracts/SourceUploadContracts.cs:56-62 | a parameter is rejected exactly when its name is blank, with "Source parameters must specify a name." |
| SourceUpload.RequestError | src/ConfigSetup.Web/Contracts/SourceUploadContracts.cs:23-34 | a request is rejected exactly when its name or some parameter name is blank; the name is reported first |
| SourceUpload.NewSourceUploadResult | src/ConfigSetup.Web/Contracts/SourceUploadContracts.cs:70-85 | negative source counts throw first, then negative parameter counts; a negative duration is stored as zero and any other is kept |
| SourceUpload.EmptyIsConstructed | src/ConfigSetup.Web/Contracts/SourceUploadContracts.cs:93 | Empty is the result constructor applied to zero counts and a zero duration |
| SourceUpload.ParameterCountAppend | src/ConfigSetup.Web/Services/SimulatedSourceUploadService.cs:66 | the parameter total of two batches together is the sum of their totals |
| SourceUpload.UploadMany | src/ConfigSetup.Web/Services/SimulatedSourceUploadService.cs:36-68 | a missing list throws; null entries are skipped; nothing left gives Empty; the upload succeeds exactly when every request is valid, fails otherwise with the validation error of the first invalid request, and reports the request count, the parameter total and the clamped duration |
| SourceUpload.UploadOne | src/ConfigSetup.Web/Services/SimulatedSourceUploadService.cs:30-34 | a missing request throws; otherwise it succeeds exactly when the request is valid and reports one source with its parameters |
| SourceUpload.UploadIgnoresMissing | src/ConfigSetup.Web/Services/SimulatedSourceUploadService.cs:40 | a null entry anywhere in the list changes nothing |
| SourceUpload.UploadBatchesAdd | src/ConfigSetup.Web/Services/SimulatedSourceUploadService.cs:36-68 | uploading two valid batches together succeeds and reports the sums of their counts |
| ConnectionEditors.EditorNormalize | src/ConfigSetup.Web/ViewModels/InstrumentConnectionEditorViewModel.cs:113-117 | a non-blank value gives its trim; a blank value gives the fallback as it is; the outcome is null exactly when both are blank, and never blank otherwise |
| ConnectionEditors.EditorNormalizeIsNormalised | src/ConfigSetup.Web/ViewModels/InstrumentConnectionEditorViewModel.cs:113-117 | with a trimmed non-blank (or missing) fallback the outcome is trimmed and non-blank too |
| ConnectionEditors.NewConnectionEditor | src/ConfigSetup.Web/ViewModels/InstrumentConnectionEditorViewModel.cs:13-22 | each default is the normalised argument, else "HiSLIP", the empty host and "4880"; the current fields start at the defaults |
| ConnectionEditors.ResetToDefault | src/ConfigSetup.Web/ViewModels/InstrumentConnectionEditorViewModel.cs:36-41 | afterwards every current field equals its default, and the defaults are unchanged |
| ConnectionEditors.Apply | src/ConfigSetup.Web/ViewModels/InstrumentConnectionEditorViewModel.cs:43-54 | no connection resets; otherwise each field is the connection's normalised value or its default; the defaults never change |
| ConnectionEditors.EffectiveProtocolPresent | src/ConfigSetup.Web/ViewModels/InstrumentConnectionEditorViewModel.cs:60-90 | with a normalised default the protocol written out is always present and normalised |
| ConnectionEditors.EffectivePortPresent | src/ConfigSetup.Web/ViewModels/InstrumentConnectionEditorViewModel.cs:61-92 | with a normalised default the port written out is always present and normalised |
| ConnectionEditors.ToXElement | src/ConfigSetup.Web/ViewModels/InstrumentConnectionEditorViewModel.cs:56-85 | there is an element exactly when the host is not blank; its protocol, Address and Port read back as the effective values |
| ConnectionEditors.ToConnectionModel | src/ConfigSetup.Web/ViewModels/InstrumentConnectionEditorViewModel.cs:87-93 | the model is normalised and its host is the normalised current host |
| ConnectionEditors.ModelIsComplete | src/ConfigSetup.Web/ViewModels/InstrumentConnectionEditorViewModel.cs:87-93 | for an editor built by the constructor the model always has a protocol and a port |
| ConnectionEditors.ElementAgreesWithModel | src/ConfigSetup.Web/ViewModels/InstrumentConnectionEditorViewModel.cs:56-93 | the element and the connection model agree on protocol, address and port |
| ConnectionEditors.ApplyThenModel | src/ConfigSetup.Web/ViewModels/InstrumentConnectionEditorViewModel.cs:43-93 | applying a complete normalised connection and reading the model back gives that connection |
| ConnectionEditors.BuiltInDefaultUsesHislip | src/ConfigSetup.Web/ViewModels/InstrumentConnectionEditorViewModel.cs:15-105 | an editor left on the built-in "HiSLIP" default addresses the hislip0 segment, as the comparison ignores case |
| ConnectionEditors.BuildVisaResourceAddress | src/ConfigSetup.Web/ViewModels/InstrumentConnectionEditorViewModel.cs:95-111 | the address is empty exactly when the host is blank, and otherwise starts with "TCPIP0::" |
| ConnectionEditors.VisaAddressSplits | src/ConfigSetup.Web/ViewModels/InstrumentConnectionEditorViewModel.cs:95-111 | with a host and port free of colons the VISA string splits on ':' back into TCPIP0, host, segment, the port when present and INSTR, so each can be read back |
| ParameterEditors.NewParameterEditor | src/ConfigSetup.Web/ViewModels/ParameterEditorViewModel.cs:10-20 | a blank name throws ArgumentException; otherwise the name and the default are trimmed (a missing default is empty) and the value starts at the default |
| ParameterEditors.ValueOrDefault | src/ConfigSetup.Web/ViewModels/ParameterEditorViewModel.cs:28 | a blank value yields the default; any other value yields its non-blank trim |
| ParameterEditors.ResetToDefault | src/ConfigSetup.Web/ViewModels/ParameterEditorViewModel.cs:30-33 | afterwards the effective value is the default again; name and default are unchanged |
| ParameterEditors.Apply | src/ConfigSetup.Web/ViewModels/ParameterEditorViewModel.cs:35-38 | a missing or blank value restores the default, anything else is stored trimmed; name and default never change and the invariant is kept |
| ParameterEditors.Clone | src/ConfigSetup.Web/ViewModels/ParameterEditorViewModel.cs:40-46 | the copy re-runs the constructor on the name and default, so it fails exactly when the name is blank, and keeps the current value |
| ParameterEditors.CloneIsIdentity | src/ConfigSetup.Web/ViewModels/ParameterEditorViewModel.cs:10-46 | cloning an editor that satisfies the constructor's invariant gives an equal editor |
| ParameterEditors.ResetIsApplyingNothing | src/ConfigSetup.Web/ViewModels/ParameterEditorViewModel.cs:30-38 | resetting is applying a missing value |
| ParameterEditors.ApplyIdempotent | src/ConfigSetup.Web/ViewModels/ParameterEditorViewModel.cs:35-38 | applying the same value twice is applying it once |
| ParameterEditors.ApplyBlankRestoresDefault | src/ConfigSetup.Web/ViewModels/ParameterEditorViewModel.cs:28-37 | after applying a blank value the effective value is the default |
| ParameterEditors.ApplyValueIsEffective | src/ConfigSetup.Web/ViewModels/ParameterEditorViewModel.cs:28-37 | after applying a non-blank value the effective value is that value trimmed |
| DeviceEditors.CopyAll | src/ConfigSetup.Web/ViewModels/DeviceEditorViewModel.cs:44-49 | a null parameter throws ArgumentNullException; otherwise the list is copied whole and in order |
| DeviceEditors.CopyAllPresent | src/ConfigSetup.Web/ViewModels/DeviceEditorViewModel.cs:44-49 | copying a list of present editors gives that list back |
| DeviceEditors.NewDeviceEditor | src/ConfigSetup.Web/ViewModels/DeviceEditorViewModel.cs:17-50 | a blank name throws first, then a null parameter; otherwise the name and defaults are trimmed (missing ones empty), the current values start at the defaults, a missing connection editor becomes a fresh one and the parameter editors are copied |
| DeviceEditors.ResetToDefaults | src/ConfigSetup.Web/ViewModels/DeviceEditorViewModel.cs:74-86 | every setting, the connection editor and every parameter editor return to their defaults; the number of parameter editors is kept |
| DeviceEditors.FirstMatch | src/ConfigSetup.Web/ViewModels/DeviceEditorViewModel.cs:104-105 | the position of the first configuration parameter whose name equals the editor's ignoring case, no earlier one matching |
| DeviceEditors.Matching | src/ConfigSetup.Web/ViewModels/DeviceEditorViewModel.cs:104-106 | a value is found exactly when some configuration parameter matches, and it is the first match's value |
| DeviceEditors.ApplyExisting | src/ConfigSetup.Web/ViewModels/DeviceEditorViewModel.cs:102-107 | every existing editor keeps its name and default and takes the first matching value trimmed, or its default |
| DeviceEditors.AddMissing | src/ConfigSetup.Web/ViewModels/DeviceEditorViewModel.cs:109-119 | the loop only appends: the editors already present stay first and unchanged |
| DeviceEditors.Apply | src/ConfigSetup.Web/ViewModels/DeviceEditorViewModel.cs:88-120 | no configuration resets; otherwise each setting takes the configuration's trimmed value or its default, the connection editor applies the connection, existing editors take matching values and missing ones are appended; name and defaults never change |
| DeviceEditors.Represents | src/ConfigSetup.Web/ViewModels/DeviceEditorViewModel.cs:122-126 | a null configuration throws; otherwise true exactly when the names are equal ignoring case |
| DeviceEditors.CoveredByNames | src/ConfigSetup.Web/ViewModels/DeviceEditorViewModel.cs:111 | whether a parameter counts as present depends only on the editors' names |
| DeviceEditors.AddMissingFailure | src/ConfigSetup.Web/ViewModels/DeviceEditorViewModel.cs:109-119 | the loop fails only at a parameter with a blank name, with the parameter editor constructor's error |
| DeviceEditors.AddMissingCovers | src/ConfigSetup.Web/ViewModels/DeviceEditorViewModel.cs:109-119 | comparing trimmed names, a loop that completes leaves every configuration parameter with an editor |
| DeviceEditors.AddMissingNothingWhenCovered | src/ConfigSetup.Web/ViewModels/DeviceEditorViewModel.cs:109-114 | when every configuration parameter already has an editor the loop adds nothing and does not fail |
| DeviceEditors.NewEditors | src/ConfigSetup.Web/ViewModels/DeviceEditorViewModel.cs:169-171 | one parameter editor per configuration parameter, in order, holding its value as default; a blank name throws |
| DeviceEditors.FromConfiguration | src/ConfigSetup.Web/ViewModels/DeviceEditorViewModel.cs:165-187 | a null configuration throws, then a blank parameter name, then a blank device name; it succeeds exactly otherwise, under the trimmed name |
| DeviceEditors.Unapplied | src/ConfigSetup.Web/ViewModels/DeviceEditorViewModel.cs:173-183 | the constructed editor exists exactly when the device name is not blank, holds the built parameter editors and keeps the invariant |
| DeviceEditors.PaddedNameDiffers | src/ConfigSetup.Web/ViewModels/DeviceEditorViewModel.cs:105-125 | a name that trimming changes is not equal to its trimmed form in any letter case |
| DeviceEditors.FromConfigurationParameters | src/ConfigSetup.Web/ViewModels/DeviceEditorViewModel.cs:169-185 | the returned parameter editors are the built ones with the configuration applied |
| DeviceEditors.UntrimmedParameterDuplicates | src/ConfigSetup.Web/ViewModels/DeviceEditorViewModel.cs:102-187 | as written, one parameter whose name has surrounding whitespace yields two parameter editors |
| DeviceEditors.FromConfigurationOnePerParameter | src/ConfigSetup.Web/ViewModels/DeviceEditorViewModel.cs:165-187 | comparing trimmed names, a device built from a configuration has exactly one editor per parameter, in order, under the trimmed name |
| DeviceEditors.CoveredAfterApply | src/ConfigSetup.Web/ViewModels/DeviceEditorViewModel.cs:109-119 | comparing trimmed names, after a completed application every configuration parameter has an editor |
| DeviceEditors.ReapplyAddsNothing | src/ConfigSetup.Web/ViewModels/DeviceEditorViewModel.cs:88-120 | comparing trimmed names, applying a configuration a second time adds no parameter editor and keeps their names |
| DeviceEditors.UntrimmedNameNotRepresented | src/ConfigSetup.Web/ViewModels/DeviceEditorViewModel.cs:122-174 | as written, the editor built from a device whose name has surrounding whitespace does not represent that device |
| DeviceEditors.FromConfigurationRepresents | src/ConfigSetup.Web/ViewModels/DeviceEditorViewModel.cs:122-187 | comparing trimmed names, the editor built from a device represents it |
| DeviceEditors.CurrentOrDefault | src/ConfigSetup.Web/ViewModels/DeviceEditorViewModel.cs:132-198 | a non-blank current value gives its trim; otherwise the default; nothing is written when both are blank |
| DeviceEditors.ParameterEntry | src/ConfigSetup.Web/ViewModels/DeviceEditorViewModel.cs:148-160 | a parameter editor writes a Parameter element exactly when its effective value is not blank, under the editor's name and with that value |
| DeviceEditors.ConnectionEntry | src/ConfigSetup.Web/ViewModels/DeviceEditorViewModel.cs:142-146 | the connection element is added exactly when the connection editor produces one |
| DeviceEditors.ToXElement | src/ConfigSetup.Web/ViewModels/DeviceEditorViewModel.cs:128-136 | the Device element carries the editor's name and the effective source when it is not blank |
| DeviceEditors.ElementReadBack | src/ConfigSetup.Web/ViewModels/DeviceEditorViewModel.cs:138-160 | reading back, Frequency, Power and Mode hold the effective values and are absent when blank; the connection element and the parameter elements follow |
| DeviceEditors.AddMissingValid | src/ConfigSetup.Web/ViewModels/DeviceEditorViewModel.cs:116-118 | the loop appends only editors that keep the parameter editor invariant |
| DeviceEditors.ApplyKeepsValid | src/ConfigSetup.Web/ViewModels/DeviceEditorViewModel.cs:88-120 | applying a configuration, or none, keeps the editor's invariant even when the loop stops part-way |
| DeviceEditors.FromConfigurationApplies | src/ConfigSetup.Web/ViewModels/DeviceEditorViewModel.cs:173-186 | the returned editor is the constructed editor with the configuration applied |
| DeviceEditors.FromConfigurationIsValid | src/ConfigSetup.Web/ViewModels/DeviceEditorViewModel.cs:165-187 | an editor built from a configuration keeps the invariant |
| DeviceEditors.ApplyFailure | src/ConfigSetup.Web/ViewModels/DeviceEditorViewModel.cs:96-119 | Apply fails only for a configuration holding a blank parameter name, with that constructor's error |
| DeviceEditors.ApplyKeepsEditors | src/ConfigSetup.Web/ViewModels/DeviceEditorViewModel.cs:102-119 | Apply keeps the existing parameter editors in order under their names and only appends |
| TemplateCatalog.KeptAsWritten | src/ConfigSetup.Web/ViewModels/ParameterEditorViewModel.cs:12-17 | a non-empty trimmed literal is not blank and is kept as written by the normalisation |
| TemplateCatalog.SeedConnectionKeepsFields | src/ConfigSetup.Web/ViewModels/DeviceEditorTemplateCatalog.cs:32-81 | each template's connection editor starts at the literal protocol, host and port |
| TemplateCatalog.ParametersKept | src/ConfigSetup.Web/ViewModels/DeviceEditorTemplateCatalog.cs:33-37 | parameter editors built from trimmed literals carry those names and defaults unchanged |
| TemplateCatalog.ConstructKeepsSeed | src/ConfigSetup.Web/ViewModels/DeviceEditorTemplateCatalog.cs:26-31 | the device editor constructor keeps a template's literal name and defaults and the connection and parameter editors it is given |
| TemplateCatalog.BuildKeepsSeed | src/ConfigSetup.Web/ViewModels/DeviceEditorTemplateCatalog.cs:24-39 | a well-formed template builds, and the editor holds exactly its name, defaults, connection and parameters |
| TemplateCatalog.SeedsWellFormed | src/ConfigSetup.Web/ViewModels/DeviceEditorTemplateCatalog.cs:24-86 | every literal in the four templates is non-blank and free of surrounding whitespace, so no constructor throws |
| TemplateCatalog.CreateDefaultEditors | src/ConfigSetup.Web/ViewModels/DeviceEditorTemplateCatalog.cs:13-22 | four editors, one per template in order, each what that template's constructors build |
| TemplateCatalog.DefaultEditorKeepsSeed | src/ConfigSetup.Web/ViewModels/DeviceEditorTemplateCatalog.cs:13-86 | each default editor holds its template's name, connection and parameters |
| TemplateCatalog.DefaultEditorNames | src/ConfigSetup.Web/ViewModels/DeviceEditorTemplateCatalog.cs:17-20 | the editors are Pulse Arb, Noise Source, Vector Source and Calibration Reference, in that order |
| TemplateCatalog.SeedNamesDistinct | tests/ConfigSetup.Tests/Web/DeviceEditorTemplateCatalogTests.cs:11-17 | four editors bearing the catalog's names have names pairwise different ignoring case |
| TemplateCatalog.DefaultNamesDistinct | tests/ConfigSetup.Tests/Web/DeviceEditorTemplateCatalogTests.cs:11-17 | no two default editors have names equal ignoring case |
| TemplateCatalog.FirstEditorDefaults | tests/ConfigSetup.Tests/Web/DeviceEditorTemplateCatalogTests.cs:19-31 | the first editor is Pulse Arb with ARB-A, 1.200GHz, -10dBm, FDM and three parameter editors |
| TemplateCatalog.DefaultHostsPresent | src/ConfigSetup.Web/ViewModels/DeviceEditorTemplateCatalog.cs:32-81 | every default editor has a connection host, so each writes a Connection element |
| TemplateCatalog.Signature | tests/ConfigSetup.Tests/Web/DeviceEditorTemplateCatalogTests.cs:38-40 | a signature starts with the first parameter's name |
| TemplateCatalog.FirstParameterNames | src/ConfigSetup.Web/ViewModels/DeviceEditorTemplateCatalog.cs:35-84 | the first parameters are WAVE:TYPE, NOISE:BAND, ARB:FILE and OUTP:STAT |
| TemplateCatalog.SignaturesDiffer | tests/ConfigSetup.Tests/Web/DeviceEditorTemplateCatalogTests.cs:38-42 | editors whose first parameters begin with different letters have different signatures |
| TemplateCatalog.CatalogSignaturesDiffer | tests/ConfigSetup.Tests/Web/DeviceEditorTemplateCatalogTests.cs:33-43 | four editors whose first parameters are the catalog's have pairwise different signatures |
| TemplateCatalog.DefaultSignaturesDistinct | tests/ConfigSetup.Tests/Web/DeviceEditorTemplateCatalogTests.cs:33-43 | no two default editors share a parameter signature |
| WorkspaceStates.SetActiveTab | src/ConfigSetup.Web/ViewModels/ScpiWorkspaceState.cs:12-15 | afterwards the chosen tab, and only it, is active |
| WorkspaceStates.GetTabCss | src/ConfigSetup.Web/ViewModels/ScpiWorkspaceState.cs:19-22 | every tab link carries nav-link; it is "nav-link active" exactly for the active tab |
| WorkspaceStates.GetPaneCss | src/ConfigSetup.Web/ViewModels/ScpiWorkspaceState.cs:24-28 | every pane carries "tab-pane fade"; it is "tab-pane fade show active" exactly for the active tab |
| WorkspaceStates.OneActiveTab | src/ConfigSetup.Web/ViewModels/EditorWorkspaceState.cs:12-25 | exactly one tab's link and pane are rendered active, the active tab's |
| WorkspaceStates.LastSelectionWins | src/ConfigSetup.Web/ViewModels/ScpiWorkspaceState.cs:12-15 | only the last selection matters, and selecting the showing tab changes nothing |
| WorkspaceStates.NewScpiWorkspaceState | src/ConfigSetup.Web/ViewModels/ScpiWorkspaceState.cs:8 | a new SCPI workspace shows the Commands tab and not the Instrument tab |
| WorkspaceStates.InstrumentPanelFollowsTab | src/ConfigSetup.Web/ViewModels/ScpiWorkspaceState.cs:10 | the instrument panel is visible exactly when the Instrument tab link is active; hidden in a new workspace, shown once Instrument is selected |
| WorkspaceStates.ScpiSwitchUpdatesCss | tests/ConfigSetup.Tests/Web/ScpiWorkspaceStateTests.cs:7-30 | a new SCPI workspace renders Commands active; after selecting Instrument, Commands is plain and Instrument active |
| WorkspaceStates.NewEditorWorkspaceState | src/ConfigSetup.Web/ViewModels/EditorWorkspaceState.cs:5 | a new editor workspace shows the source editor and not the SCPI workspace |
| WorkspaceStates.EditorSwitchUpdatesCss | tests/ConfigSetup.Tests/Web/EditorWorkspaceStateTests.cs:7-30 | a new editor workspace renders the source editor active; after selecting the SCPI workspace, the source editor is plain and the SCPI workspace active |
| HomePage.CloseMenus | src/ConfigSetup.Web/Components/Pages/Home.razor.cs:367-370 | closing the menus leaves no menu open |
| HomePage.ToggleMenu | src/ConfigSetup.Web/Components/Pages/Home.razor.cs:372-375 | toggling opens the menu exactly when it was not the open one, and closes everything exactly when it was |
| HomePage.MenuToggleClass | src/ConfigSetup.Web/Components/Pages/Home.razor.cs:508-511 | a menu's toggle carries "active" exactly when it is the open menu, and nothing otherwise |
| HomePage.ToggleTwice | src/ConfigSetup.Web/Components/Pages/Home.razor.cs:367-375 | toggling a menu twice restores an open state of that menu and closes any other; after closing, toggling always opens the menu |
| HomePage.OneMenuHighlighted | src/ConfigSetup.Web/Components/Pages/Home.razor.cs:508-511 | at most one menu toggle is highlighted, and the open menu's is |
| HomePage.ClearAlerts | src/ConfigSetup.Web/Components/Pages/Home.razor.cs:684-688 | afterwards neither banner shows |
| HomePage.ShowError | src/ConfigSetup.Web/Components/Pages/Home.razor.cs:690-694 | afterwards the error banner shows the message and the success banner is gone |
| HomePage.ShowSuccess | src/ConfigSetup.Web/Components/Pages/Home.razor.cs:696-700 | afterwards the success banner shows the message and the error banner is gone |
| HomePage.AlertsStayExclusive | src/ConfigSetup.Web/Components/Pages/Home.razor.cs:684-700 | after any run of the three alert handlers, never both banners at once |
| HomePage.LastActionDecides | src/ConfigSetup.Web/Components/Pages/Home.razor.cs:684-700 | the banners after a run depend only on its last handler, not on what showed before |
| HomePage.LineCommand | src/ConfigSetup.Web/Components/Pages/Home.razor.cs:268-269 | a line gives no command exactly when it is blank, and otherwise one command of its trimmed text |
| HomePage.CommandsOf | src/ConfigSetup.Web/Components/Pages/Home.razor.cs:266-270 | the commands read from lines are never blank and always trimmed |
| HomePage.LinesGiveCommands | src/ConfigSetup.Web/Components/Pages/Home.razor.cs:266-270 | every non-blank line gives the command of its trimmed text |
| HomePage.CommandsFromLines | src/ConfigSetup.Web/Components/Pages/Home.razor.cs:266-270 | every command comes from some non-blank line, as that line trimmed |
| HomePage.NothingIffAllBlank | src/ConfigSetup.Web/Components/Pages/Home.razor.cs:266-272 | no command is read exactly when every line is blank |
| HomePage.CommandsOfAppend | src/ConfigSetup.Web/Components/Pages/Home.razor.cs:266-270 | the commands of two runs of lines are the commands of each, in order |
| HomePage.BlankLineIgnored | src/ConfigSetup.Web/Components/Pages/Home.razor.cs:267-269 | inserting a blank line anywhere changes no command |
| HomePage.CustomCommands | src/ConfigSetup.Web/Components/Pages/Home.razor.cs:266-270 | the commands typed in the box (a missing text read as empty) are never blank and always trimmed |
| HomePage.CleanLinesKept | src/ConfigSetup.Web/Components/Pages/Home.razor.cs:266-270 | lines that are already trimmed and non-blank give back exactly the commands they spell |
| HomePage.CustomCommandsRoundTrip | src/ConfigSetup.Web/Components/Pages/Home.razor.cs:266-270 | writing trimmed, non-blank, single-line commands one per line and reading the box back gives the same commands |
| HomePage.SendCustomCommands | src/ConfigSetup.Web/Components/Pages/Home.razor.cs:264-279 | the box is rejected with the fixed message exactly when every line is blank; otherwise its non-empty commands run under the fixed sequence name |
| HomePage.RepresentsAsAnswered | src/ConfigSetup.Web/ViewModels/DeviceEditorViewModel.cs:122-126 | an editor asked about a device of a configuration answers without throwing, by name |
| HomePage.MatchFor | src/ConfigSetup.Web/Components/Pages/Home.razor.cs:483 | the device an editor is applied is the first one it represents, and none exactly when it represents none |
| HomePage.RepresentsByName | src/ConfigSetup.Web/ViewModels/DeviceEditorViewModel.cs:122-126 | whether an editor represents a device depends only on the editor's name |
| HomePage.ApplyEach | src/ConfigSetup.Web/Components/Pages/Home.razor.cs:481-485 | the first loop keeps the editors and their names in place; each editor is either left as it was or its own application of its matching device; without an exception each editor is its own application of its matching device, and it finishes exactly when no application throws |
| HomePage.Created | src/ConfigSetup.Web/Components/Pages/Home.razor.cs:494 | comparing trimmed names, an editor built for a device represents it |
| HomePage.AddUnrepresented | src/ConfigSetup.Web/Components/Pages/Home.razor.cs:487-495 | the second loop keeps the existing editors as a prefix and adds at most one editor per device |
| HomePage.SelectFirstIfNone | src/ConfigSetup.Web/Components/Pages/Home.razor.cs:497 | a selection is kept; with none, the first editor is selected, or nothing when there is no editor |
| HomePage.ApplyConfigurationToEditors | src/ConfigSetup.Web/Components/Pages/Home.razor.cs:477-498 | a missing configuration throws and changes nothing; existing editors keep their place and name and, without an exception, take their matching device; the selection falls to the first editor only after a full run; a selection inside the editor list stays inside it |
| HomePage.ApplyConfigurationKeepsEditorsValid | src/ConfigSetup.Web/Components/Pages/Home.razor.cs:477-498 | when every editor on the page holds its invariant, every editor after an application holds it too, whether the application finishes or stops at an exception |
| HomePage.AddUnrepresentedKeepsValid | src/ConfigSetup.Web/Components/Pages/Home.razor.cs:487-495 | the second loop keeps every editor's invariant when the editors it builds hold it |
| HomePage.AnyRepresentsByNames | src/ConfigSetup.Web/Components/Pages/Home.razor.cs:489 | a device represented by some editor stays represented once the editors are replaced by editors of the same names, with more appended |
| HomePage.AddUnrepresentedCovers | src/ConfigSetup.Web/Components/Pages/Home.razor.cs:487-495 | when every editor built represents its device and the loop finishes, every device is represented afterwards |
| HomePage.AddUnrepresentedNothingWhenCovered | src/ConfigSetup.Web/Components/Pages/Home.razor.cs:487-495 | when every device is already represented, the second loop adds nothing and cannot throw |
| HomePage.AddedFromDevices | src/ConfigSetup.Web/Components/Pages/Home.razor.cs:487-495 | every editor the second loop adds was built from one of the configuration's devices |
| HomePage.CreatorRepresents | src/ConfigSetup.Web/ViewModels/DeviceEditorViewModel.cs:165-187 | comparing trimmed names, every editor built from a device represents that device |
| HomePage.ApplyConfigurationCovers | src/ConfigSetup.Web/Components/Pages/Home.razor.cs:477-498 | comparing trimmed names, after a full application every device of the configuration is represented by some editor |
| HomePage.EditorsAfterApplication | src/ConfigSetup.Web/Components/Pages/Home.razor.cs:479-495 | the editors afterwards are those of the first loop, followed by the second loop's additions unless the first loop threw |
| HomePage.ApplyConfigurationAddsFromDevices | src/ConfigSetup.Web/Components/Pages/Home.razor.cs:477-498 | every editor an application adds was built from a device of the configuration |
| HomePage.ReapplyAddsNoEditors | src/ConfigSetup.Web/Components/Pages/Home.razor.cs:477-498 | corrected: comparing trimmed names, applying the same configuration a second time adds no editor |
| HomePage.AddUnrepresentedOne | src/ConfigSetup.Web/Components/Pages/Home.razor.cs:487-495 | one unrepresented device gets exactly the editor built from it, appended |
| HomePage.OneUnrepresentedDeviceAdded | src/ConfigSetup.Web/Components/Pages/Home.razor.cs:477-498 | a configuration of one device no editor represents adds exactly the editor built from it, at the end |
| HomePage.FirstApplicationBuilds | src/ConfigSetup.Web/Components/Pages/Home.razor.cs:477-498 | on an empty page, a one-device configuration leaves exactly the editor built from that device |
| HomePage.UnmatchedEditorResets | src/ConfigSetup.Web/ViewModels/DeviceEditorViewModel.cs:88-94 | an editor that represents no device is reset to its defaults and cannot throw |
| HomePage.SecondApplicationAdds | src/ConfigSetup.Web/Components/Pages/Home.razor.cs:477-498 | a page with one editor not representing the configured device ends with two editors |
| HomePage.UnrepresentedDeviceAddedAgain | src/ConfigSetup.Web/Components/Pages/Home.razor.cs:487-495 | when the editor built for a device does not represent it, applying the configuration again adds a second editor for the same device |
| HomePage.PaddedDeviceAddedAgain | src/ConfigSetup.Web/Components/Pages/Home.razor.cs:487-495 | as written: a device whose name has surrounding whitespace gets a second editor each time its configuration is applied again |
| HomePage.UploadEntry | src/ConfigSetup.Web/Components/Pages/Home.razor.cs:599-601 | a parameter is uploaded exactly when its effective value is not blank, under its name with that value |
| HomePage.UploadParametersFrom | src/ConfigSetup.Web/Components/Pages/Home.razor.cs:599-602 | every uploaded parameter is some editor parameter's name and non-blank effective value |
| HomePage.UploadParametersInclude | src/ConfigSetup.Web/Components/Pages/Home.razor.cs:599-602 | every editor parameter with a non-blank effective value is uploaded |
| HomePage.BuildUploadRequest | src/ConfigSetup.Web/Components/Pages/Home.razor.cs:588-604 | the request carries the editor's name, its effective source, frequency, power and mode and only non-blank parameter values; an editor built by the constructors gives a request that passes validation |
| HomePage.UploadParametersMatchEntries | src/ConfigSetup.Web/Components/Pages/Home.razor.cs:599-602 | the uploaded parameters are, one for one and in order, the name and value of the editor's `<Parameter>` elements |
| HomePage.UploadMatchesExport | src/ConfigSetup.Web/Components/Pages/Home.razor.cs:588-604 | the upload request says what the editor's own `<Device>` element says: name, source, Frequency, Power, Mode and parameters |
| HomePage.UploadRequests | src/ConfigSetup.Web/Components/Pages/Home.razor.cs:570-572 | one request per editor, in order |
| HomePage.UploadSources | src/ConfigSetup.Web/Components/Pages/Home.razor.cs:554-586 | nothing is uploaded exactly when no editor is present; a non-empty upload fails exactly when some built request fails validation, and a failure means some editor is invalid; a success counts every editor and the parameters of every request |
| HomePage.ValidEditorsUpload | src/ConfigSetup.Web/Components/Pages/Home.razor.cs:554-586 | editors built by the constructors always upload, one source per editor |
| HomePage.UploadAlerts | src/ConfigSetup.Web/Components/Pages/Home.razor.cs:559-581 | afterwards never both banners; an error exactly when nothing was uploaded, with the no-sources or the upload-failed message |
| PageExport.EditorsDocument | src/ConfigSetup.Web/Components/Pages/Home.razor.cs:322-329 | the XML view has the 1.0/utf-8/yes declaration and a Configuration root holding each editor's element, in order |
| PageExport.ExportParameters | src/ConfigSetup.Web/Components/Pages/Home.razor.cs:346-353 | one export entry per parameter editor, in order, under the editor's name |
| PageExport.ExportDeviceValid | src/ConfigSetup.Web/Components/Pages/Home.razor.cs:335-356 | the export entry of an editor built by the constructors passes the export validation |
| PageExport.BuildExportRequest | src/ConfigSetup.Web/Components/Pages/Home.razor.cs:331-359 | one device entry per editor, in order, under its name and never with a connection |
| PageExport.BuildExportRequestValid | src/ConfigSetup.Web/Components/Pages/Home.razor.cs:331-359 | with editors built by the constructors, the request is valid exactly when there is an editor |
| PageExport.CurrentOrDefaultNormalised | src/ConfigSetup.Web/Components/Pages/Home.razor.cs:548-552 | with a trimmed default, the effective value is null or a non-blank trimmed string |
| PageExport.ParameterElementsAgree | src/ConfigSetup.Web/Components/Pages/Home.razor.cs:346-353 | the export service writes, for the page's parameter entries, exactly the `<Parameter>` elements the editors write |
| PageExport.ExportMatchesEditorXml | src/ConfigSetup.Web/Components/Pages/Home.razor.cs:331-359 | an editor's exported `<Device>` says what its own element says (name, source, Frequency, Power, Mode, parameters) but never has a `<Connection>` |
| PageExport.ExportDocumentOfEditors | src/ConfigSetup.Web/Components/Pages/Home.razor.cs:322-359 | exporting a page of valid editors succeeds with the XML view's declaration and root, one device per editor in the same order, each agreeing with the XML view's element apart from the connection |
| PageExport.FormatDefault | src/ConfigSetup.Web/Components/Pages/Home.razor.cs:543-546 | a blank default shows as "None"; any other shows trimmed and non-blank |

## Left out

- Floating point. Tonnage, BTU and percentages are exact `real`s, so IEEE-754 effects of `Math.Round` and `Math.Ceiling` at .xx5 boundaries are not modelled. C# `int` products are unbounded integers.
- SourceUpload.UploadMany: `TotalParameters` is an unbounded sum. The 32-bit `Sum` of the source, which throws on overflow, is not modelled.
- XML and JSON text. Serialising a document to text is not modelled. Turning JSON text into a tree (`JsonDocument.Parse`) is a parameter of `OpenTapParser`. The XML configuration parsers and their schema are not part of this model.
- Instrument I/O, VISA native calls, HTTP and gRPC transports. The distributor's pushers are functions returning the outcome of one attempt. The instrument executor is represented by the call made to it.
- Clocks, delays, logging and cancellation:
  - the simulated upload's `Task.Delay`;
  - the stopwatch, which is a parameter `elapsedTicks`;
  - `InstrumentExecutionResult.CompletedAt`.
- Async and JS-interop parts of the `Home` page:
  - file reading;
  - clipboard and download calls;
  - `IsUploading` and other busy flags;
  - the formatted success message of an upload, whose text is a parameter.
- `Home` page handlers that only wire the above together are not modelled:
  - `InitializeDefaultEditors`, which installs the template catalog, itself modelled;
  - `SelectDevice`;
  - `GetSourceListItemClass`;
  - `TryGetInstrumentAddress`.
- HomePage.UploadSources: the `ArgumentNullException` for a null editor list is not modelled; the page always passes its own list. A thrown validation exception is the `UploadFailed` outcome.
- HomePage.ApplyConfigurationToEditors: the selected editor is a position in the editor list, not an object reference. It equals the source's selection because editors are only ever appended.
- DeviceEditors.NewDeviceEditor: the connection editor passed in is shared by reference in the source. Here it is copied, because editors are values; later mutations through another reference are not modelled.
- DeviceEditors.CopyAll: the cloning `Select` is modelled as a direct copy of each editor; `ParameterEditors.CloneIsIdentity` shows that cloning a valid editor gives an equal one. Object identity is not modelled.
- HomePage.AddedFromDevices: states that every added editor was built from some device of the configuration, not that additions follow device order.
- WorkspaceStates.EditorWorkspaceTab: the tab enumeration's declaration is not part of this model. Its two values, `SourceEditor` and `ScpiWorkspace`, are taken from the tests.
- Culture and Unicode. `Trim` and `IsNullOrWhiteSpace` use the ASCII whitespace set, and `OrdinalIgnoreCase` is an ASCII case fold.
- Hosting, dependency injection, process control, the MAUI shell, `configSetup.js` and the weather sample are not part of this model.

## Findings

| source | as written | input that shows it | evidently intended | confidence | as-written member | corrected member |
|---|---|---|---|---|---|---|
| src/ConfigSetup.Web/ViewModels/DeviceEditorViewModel.cs:109-119 | a configured parameter is matched against the editors' trimmed names without trimming its own name, and then added as a new editor with the trimmed name | a device built from a configuration with one parameter named " Gain " | the editor built from a configuration has one parameter editor per configured parameter, and applying it again adds none | not executed | DeviceEditors.UntrimmedParameterDuplicates | DeviceEditors.FromConfigurationOnePerParameter |
| src/ConfigSetup.Web/Components/Pages/Home.razor.cs:487-495 | `Represents` compares the configured device name untrimmed with the editor's trimmed name, so an editor built from a device with a padded name never represents it | a configuration with one device named " Pulse Arb " applied twice to an empty page gives two editors | applying the same configuration again adds no editor | not executed | HomePage.PaddedDeviceAddedAgain | HomePage.ReapplyAddsNoEditors |
| src/ConfigSetup.Application/OpenTap/OpenTapSequenceParser.cs:60-93 | `ExtractCommands` calls `TryGetProperty` on a node before checking whether it is a string; System.Text.Json throws on any element that is not an object, so the string branch can never run | `{"commands": ["*RST"]}` throws instead of giving the command `*RST` | a string node is itself a command, and scalar nodes give nothing | not executed | OpenTapJson.CommandListOfStrings | OpenTapJson.CommandsAgree |
| src/ConfigSetup.Application/OpenTap/OpenTapSequenceParser.cs:22-125 | the parser routes content starting with `[` to the JSON reader, whose first property read throws on an array root | `["*RST"]` | an array root is read as a list of commands, as the `[` branch intends | not executed | OpenTapJson.ArrayRootThrows | OpenTapJson.ArrayRootCommands |
