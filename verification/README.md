# Deploying a hardware-in-the-loop system

The driver compiles a specification of up to 32 processor cores, their connections, inputs and initial
memories into register writes for an FPGA, and splits the samples the FPGA sends back into channels. This
project models that path as one system:

specification -> schedule and list of writes -> bus operations and their log -> register contents -> meaning

and proves that the meaning is the specification, that the schedule is safe over unbounded runs, and that
the samples come out as they went in. Words and addresses are natural numbers; 32-bit wrap-around is written
out (`Wrap32`, `% 0x1_0000_0000`), bit operations are defined bit by bit in `Bits` and related to division.

| file | what it models |
|---|---|
| `Specification`, `Operations`, `Effects` | the inputs of a deployment, bus operations and word stores, and a deployment as a list of effects |
| `Schedule`, `FrameRun`, `Rates` | time slots, the unbounded run of frames they describe, timebase and dividers |
| `DmaTable`, `CoreMemory`, `ConstantEngine`, `CoreInputs`, `NoiseGenerator`, `Sequencer`, `Interconnect`, `Reciprocal` | what is written for each part of the hardware, and what it reads back as |
| `Deployment`, `HilDeployer` | the phases of a deployment, and the deployer as a class whose methods have exactly those effects |
| `RegisterLog`, `Regions`, `FinalLog` | registers and command ports as functions of a log of stores, and which stores each register window sees |
| `DeployedSystem`, `TableOverlay`, `DeployedConstants`, `DeployedLabels`, `DeployedInputLabels`, `DeployedSamples`, `Redeployment`, `StaleInitials`, `SimulationMeaning` | the main results about a whole deployment |
| `Bus`, `SimulationText`, `BusObservation` | the bus accessor as a class, its log and text dump, and the deployment seen through it |
| `BusMap` | the interconnect table with the address allocator |
| `ChannelFormat`, `Scope` | the sample format word and the demultiplexer |
| `ReferenceSystem`, `TwoCoreSystem`, `ReferencePhases`, `Failures` | systems, phases and the address map of the repository's own tests, deployed in the model, and accepted specifications that are not programmed as meant |
| `Arithmetic`, `Bits` | greatest common divisors and multiples, bit operations |

`hide` in a proof only keeps definitions it does not need out of the solver's sight.

## Main results

- `DeployedSystem.DeploymentMeansSpecification`: under a layout whose windows do not overlap, for every accepted
  specification whose cores keep to their blocks, decoding the final registers gives every core's interconnect
  entries, memory, constants and channel count and the noise generator's outputs back; a table of more than sixteen
  entries decodes as meant exactly when its late mapping words do no harm, a table under a core's memory exactly
  when the memory says the same (`TableOverlay.TableSurvivesIff`). `RunKeepsMeaning`: still so after any set_input
  calls.
- `BusObservation.RegistersObserved`, `ProgramsObserved`, `DeploySurvivesIff`: deployed through the accessor, the
  process survives exactly when every address is mapped, and then the registers and the programs are what the bus
  reads back.
- `SimulationMeaning.FilesMeanSpecification`, `FilesRebuildPlanes`: so are the two simulation files, parsed and
  replayed line by line.
- `DeployedSystem.ScheduleSafe`, `ScheduleSafeIffGaps`: no two activations, in any frames, come closer than 90
  cycles, exactly if names are distinct, when the period the specification determines holds all slots or the
  timebase is zero; otherwise exactly when names are distinct and a finite check on what the specification
  determines succeeds. Tables and memories play no part, and ties may be sorted in any way.
- `DeployedSystem.RatesExact`, `RatesMetIffUniform`: every core starts exactly as often as its sampling frequency
  says in every stretch of frames as long as the timebase, exactly when no zero is mixed in. By the period register
  such a stretch lasts one second, to within as many cycles as it has frames (`FramesLast`).
- `DeployedSamples.OutputSample`: a number sent on a deployed output and read with the format word in the final
  registers is that number times the channel's factor, for every width, sign and float that survives the format.
- `DeployedConstants.ConstantsProgrammed`, `EngineAfterRun`, `SetInputReaches`, `ConstantEngine.OwnSlotIff`: what
  every constant slot holds, in the input's own data, after a deployment and over any run of set_input calls, with
  whatever inputs are known from before.
- `TwoCoreSystem.WritesExpected`, `ReferenceSystem.WritesExpected`, `ReferencePhases`: the lists of writes of the
  repository's own tests, address by address, are those of the modelled deployment.
- `Redeployment.CacheAgrees`, `StaleInitials.TablesFreshIff`, `DeployedLabels.SelectorLabelsOutput`, `DeployedInputLabels.InputsLabelled`,
  `Scope.MuxDemuxRoundTrip`, `Bus.RunReplaysIssued`, `Bus.DumpRebuildsPlanes`.

## What the code does not do

Each of these is a property of the code as it stands, with the statement that shows it.

- Two programs of one name share a start offset and collide (`DeployedSystem.NamesCollide`, `ScheduleSafe`).
- Lengths and offsets are 32 bits wide: a core of 2^32 cycles or more gets a short slot and collides with itself
  (`DeployedSystem.LongCollides`).
- With nonzero sampling frequencies the period written is the clock over the timebase. Nothing compares it
  with the sum of the slots, and the timebase divider that is searched for is never used
  (`ReferenceSystem.PeriodUnguarded` gives a specification; `DeployedSystem.ScheduleSafeIffGaps` and
  `ScheduleSafeIffPeriod` are the exact conditions).
- The timebase is folded in an int: a least common multiple from 2^31 up is kept as a negative number, which is
  then converted to an unsigned one, and that is undefined (`Deployer.HilDeployer.FoldTimebase` says when the
  fold is exact, `Rates.StoredNegative` gives an input). The deployment is modelled below 2^31.
- One zero among nonzero sampling frequencies makes the timebase zero and the other dividers with it, so
  their registers wrap (`Rates.DividersPositive`, `DeployedSystem.MixedRatesWrap`, `RatesMetIffUniform`).
- From the seventeenth entry on, a core's mapping words land on its format words (`DeployedSystem.TablesDecode` is
  the exact condition, `Failures.SeventeenEntries` a specification).
- The memory of a core with five or more channels leaves its room as soon as one initialisation has a word per
  channel (`CoreMemory.MemoryRegion`), and can then replace a word of the DMA table (`Failures.TableOverwritten`;
  `CoreMemory.MemoryOutside` says exactly when it keeps off it, `Failures.VectorSpares` for the repository's layout,
  `TableOverlay.TableSurvivesIff` when the table decodes all the same). The constants survive any memory
  (`DeployedConstants.ConstantSlot`).
- Widths outside 8 to 23 do not survive the format word; float outputs are announced as 32 bits wide and read
  as 16 (`ChannelFormat.CodecIffWidthFits`, `FloatWidthReadsSixteen`).
- A sample tagged 6 passes the demultiplexer's range test and reads the scaling factors past their end; it is
  dropped afterwards, so what is read there does not matter (`Scope.ScopeManager.ShuntData`).
- A proxied write prints like a direct one in the control dump, so the dump is faithful exactly for direct writes
  (`SimulationText.DumpIsFaithful`, `ProxiedWriteDumpsAsDirect`).
- Two disable calls without an enable between them leave sink mode on for good, and nothing else does
  (`Bus.NestedBracketStaysSunk`, `Bus.SinkCanBeLeftIff`).
- A deployment that raises an exception has already recorded its hash, so its partial log is served as
  simulation data later (`Redeployment.DeployThenSimulate`, `CacheAgrees`); one that raises it inside
  `get_hardware_sim_data` leaves sink mode on (`Deployer.HilDeployer.GetHardwareSimData`).
- Initial values, known inputs and the timebase divider survive a deployment. The same specification is not
  affected (`Redeployment.DeployTwice`), except that the known inputs pile up (`Redeployment.InputsPileUp`);
  another one inherits stale initial values (`StaleInitials.TablesFreshIff` says exactly when,
  `Failures.InitialInherited` gives two specifications) and stale inputs, which can overwrite its
  constants (`ConstantEngine.StaleInputWritesToo`; `ConstantEngine.OwnSlotIff` says exactly when they do).
- The least divider is found from whatever the last deployment left (`Deployer.HilDeployer.CalculateTimebaseDivider`).
- With the default number of pages the ROM plane ends before the seventh core's room, although 32 cores are
  accepted (`BusObservation.RepositoryPlanes`).

## Model

| member | source | states |
|---|---|---|
| `DeployedSystem.DeploymentMeansSpecification` | src/deployment/hil_deployer.cpp:36-109 | after a whole deployment every core's DMA registers decode to its entries, format words readable as the widths and flags specified, unless its memory or its own late mapping words replace them; every memory word and channel count reads as specified, every constant slot holds the input's own data, no other constant slot is filled, and the noise generator lists every random channel |
| `DeployedSystem.TablesDecode` | src/deployment/hil_deployer.cpp:85-90 | for tables of any length that the core's memory spares, no later write of any phase or core disturbs the table: the final registers decode to its entries in map order if and only if no mapping word past the sixteenth spoils a format word, and the scope's own accessors read the entry's sign from the format word of an integer of width 8 to 23, and its width exactly for those widths, and a signed float for a float |
| `TableOverlay.TableSurvivesIff` | src/deployment/deployer_base.cpp:122-156 | with a memory that keeps off the fill port's data word, the table decodes as if the memory were not there if and only if the memory initialises no word the table is decoded from, or with what is there already |
| `DeployedSystem.MemoriesDecode` | src/deployment/hil_deployer.cpp:92-101 | every memory word of every core's block off its constant engine, at any address and channel, reads back as the last initialisation that writes it, or off the table is untouched |
| `DeployedSystem.CoresDecode` | src/deployment/hil_deployer.cpp:136-142 | each core's own register reads back the channel count decided from its program, whatever its memory and table are |
| `DeployedSystem.SequencerDecodes` | src/deployment/hil_deployer.cpp:111-134 | divisors, thresholds, period and enable word 2^n - 1 survive the whole deployment, whatever the tables, memories and names are |
| `DeployedSystem.NoiseDecodes` | src/deployment/deployer_base.cpp:208-217 | the noise generator ends with the number of random channels and their bus addresses in deployment order, over all cores |
| `DeployedSystem.RegistersProgrammed` | src/deployment/hil_deployer.cpp:407-452 | the registers describe exactly the cores laid out by execution order, ties in any order, each slot as long as its core runs, with a 90-cycle gap, undone by name |
| `DeployedSystem.RunsAsSpecified` | src/deployment/hil_deployer.cpp:111-134 | the cores and the period the registers describe are those the specification determines |
| `DeployedSystem.ThresholdClosedForm` | src/deployment/hil_deployer.cpp:424-449 | with distinct orders a threshold register is 2 plus, for each core of smaller order, 90 and the cycles it runs for: its fixed length and its per-channel length once for each channel its own register asks for |
| `DeployedSystem.CyclesRun` | src/deployment/hil_deployer.cpp:416-421 | the cycles of a core in these statements are its fixed length and its per-channel length as often as the channel count in its deployed register says |
| `DeployedSystem.ChannelsDecided` | src/deployment/hil_deployer.cpp:145-169 | a core's register reads 11 if the override is on or a reciprocal stands where an instruction of its program starts, and 8 otherwise |
| `DeployedSystem.ScheduleSafe` | src/deployment/hil_deployer.cpp:122-127 | when the period computed from the specification holds all slots, always so with timebase zero, the deployed system is safe over every run if and only if no two programs share a name |
| `DeployedSystem.NamesCollide` | src/deployment/hil_deployer.cpp:433-449 | two programs of one name in a deployed specification start together in frame 0, whatever the period |
| `DeployedSystem.LongCollides` | src/deployment/hil_deployer.cpp:419 | a core that runs in every frame and takes 2^32 cycles or more, the length its slot cannot hold, collides with itself |
| `DeployedSystem.ScheduleSafeIffGaps` | src/deployment/hil_deployer.cpp:111-134 | for any rates and clock the run is safe for ever if and only if the names are distinct and a finite check on the dividers, offsets, lengths and period computed from the specification succeeds |
| `DeployedSystem.ScheduleSafeIffPeriod` | src/deployment/hil_deployer.cpp:122-127 | when the first core in order runs in every frame, safe for ever if and only if the names are distinct and the period computed from the specification holds all slots |
| `DeployedSystem.RatesExact` | src/deployment/hil_deployer.cpp:122-127 | with nonzero frequencies the timebase is positive and fits the int it is folded in; that many frames last one second, to within as many cycles; and in every window of that many frames, wherever it starts, a core fires as often as its sampling frequency says |
| `DeployedSystem.FramesLast` | src/deployment/hil_deployer.cpp:122-127 | with a timebase t the period register holds the clock's whole number of cycles in a t-th of a second, between t * period and t * period + t in all; without one it holds exactly the sum of the slots |
| `DeployedSystem.RatesMetIffUniform` | src/deployment/hil_deployer.cpp:384-405 | all rated cores meet their rates, in every window as long as the least common multiple of their frequencies, if and only if the frequencies are all zero or all nonzero |
| `DeployedSystem.UnratedEveryFrame` | src/deployment/hil_deployer.cpp:388-389 | a core without a sampling frequency fires in every frame |
| `DeployedSystem.MixedRatesWrap` | src/deployment/hil_deployer.cpp:115-120 | a zero among nonzero frequencies wraps the divisor register of a rated core to 2^32 - 1, so that it fires once in every 2^32 frames |
| `DeployedSystem.RunKeepsMeaning` | src/deployment/deployer_base.cpp:231-243 | after any run of set_input calls, with any known inputs, every table, memory, channel count, noise output and the schedule are as deployed |
| `DeployedConstants.ConstantSlot` | src/deployment/hil_deployer.cpp:276-382 | after a deployment slot (k, j) of a core's engine holds the k-th constant's destination and the value its own data gives channel j, the only one or the j-th, though the loop erases the list head and whatever tables and memories wrote before |
| `DeployedConstants.ConstantsProgrammed` | src/deployment/hil_deployer.cpp:299-369 | the n-th constant of a core has slot n + 2^16 * j for channel j, and the slot holds address + 2^16 * j and data[j], or data[0] when that is all there is |
| `DeployedConstants.OnlyConstants` | src/deployment/deployer_base.cpp:158-207 | no slot of an engine that table and memory spare is filled by a deployment that is not one of the core's constants |
| `DeployedConstants.EngineAfterRun` | src/deployment/deployer_base.cpp:231-243 | after any deployment, accepted or not, for any inputs known from before and any set_input calls, a slot holds what the last call for a known input sitting there gave it, otherwise what the deployment left |
| `DeployedConstants.OnlyKnownAfterRun` | src/deployment/deployer_base.cpp:231-243 | after any run a slot is filled only by a constant of the core or a known input sitting there; all other slots are untouched |
| `DeployedConstants.ConstantAfterRun` | src/deployment/deployer_base.cpp:231-243 | a constant that owns its slot among the known inputs holds its destination and last set value there after any set_input calls, or the value its own data gives it |
| `DeployedConstants.SetInputReaches` | src/deployment/deployer_base.cpp:231-243 | the last call that names a constant's core, name and channel decides the constant's slot, as a float pattern for a float constant and as a word for any other, whatever calls come before and after |
| `DeployedConstants.KnownOwns` | src/deployment/deployer_base.cpp:231-243 | as long as only one specification is deployed, however often, each of its constants owns its slot |
| `DeployedConstants.DeployKnows` | src/deployment/deployer_base.cpp:207 | a deployment appends exactly the constants of its specification to whatever inputs are known |
| `DeployedConstants.EngineSees` | src/deployment/hil_deployer.cpp:36-109 | no write of any phase touches a core's constant engine except the commands of its own constants, as long as the core's table and memory do not reach it |
| `DeployedLabels.SelectorLabelsOutput` | src/deployment/hil_deployer.cpp:171-183 | the selector written for a deployed output is the label-table key that maps to that output's name |
| `DeployedLabels.OneLabel` | src/deployment/deployer_base.cpp:78-84 | over a whole deployment, random inputs included, an output's key is labelled with its own name and no other |
| `DeployedLabels.SelectorIsKey` | src/deployment/hil_deployer.cpp:181-182 | the selector word and the label key of an entry in range are the same number, built in two places |
| `DeployedLabels.DestIsKey` | src/deployment/deployer_base.cpp:161 | a constant or random channel is sent to exactly the bus address and channel that an entry of that address and channel delivers to |
| `DeployedLabels.LabelKeys` | src/deployment/deployer_base.cpp:84 | which keys the label table holds after any list of effects, and that each carries a name it was given |
| `DeployedInputLabels.InputsLabelled` | src/deployment/hil_deployer.cpp:276-382 | the path of each constant channel names its engine's value register, its destination, selector and core, although the core index is filled in after the label and once more after the loop |
| `DeployedInputLabels.OnlyInputsLabelled` | src/deployment/deployer_base.cpp:189-201 | the table of inputs has no path that is not one of a constant channel |
| `DeployedSamples.OutputSample` | src/deployment/deployer_base.cpp:94-116 | a number sent on a deployed output, packed with the format word in the core's final registers, is scaled by the scope to that number times the factor, for integers of width 8 to 23, signed or not, and to the float's own bits for floats; the tag comes back too |
| `Redeployment.DeployTwice` | src/deployment/hil_deployer.cpp:36-51 | deploying twice leaves the log, label tables and noise count of deploying once, whatever persisted before |
| `Redeployment.InputsPileUp` | src/deployment/hil_deployer.cpp:36-51 | each deployment appends the same known inputs once more |
| `Redeployment.CacheAgrees` | src/deployment/hil_deployer.cpp:203-233 | cached simulation data is that of a forced deployment plus the start write if and only if the specification deploys; of any other a forced deployment yields nothing |
| `Redeployment.DeployThenSimulate` | src/deployment/hil_deployer.cpp:203-233 | after a deployment, accepted or not, the simulation data of the same specification is always served, from the partial log if need be |
| `StaleInitials.TablesFreshIff` | src/deployment/deployer_base.cpp:86-92 | a deployment's tables decode as those of a fresh deployer if and only if nothing was left behind for a deployed entry whose output no connection supplies with a value |
| `StaleInitials.TablesAlikeIff` | src/deployment/hil_deployer.cpp:235-274 | on top of two histories the tables decode alike if and only if the histories left the same for those entries |
| `SimulationMeaning.FilesMeanSpecification` | src/deployment/hil_deployer.cpp:203-233 | parsing the control text of the simulation data gives a list of writes whose registers mean the specification |
| `SimulationMeaning.FilesMeanSchedule` | src/deployment/hil_deployer.cpp:203-233 | the registers those writes leave describe the cores and the period the specification determines |
| `SimulationMeaning.FilesRebuildPlanes` | src/hw_interface/bus/bus_accessor.cpp:141-157 | replaying both simulation files into fresh planes leaves exactly what deploying over the bus leaves |
| `BusObservation.RegistersObserved` | src/hw_interface/bus/bus_accessor.cpp:100-131 | deployed through the live accessor with all its addresses mapped, the process survives, every mapped register reads as the last value the deployment gives it, and the logs agree |
| `BusObservation.ProgramsObserved` | src/hw_interface/bus/bus_accessor.cpp:167-187 | and every program is in the ROM plane word for word |
| `BusObservation.DeploySurvivesIff` | src/hw_interface/bus/bus_accessor.cpp:133-165 | a process survives a deployment, accepted or not, if and only if every address it writes or loads to is mapped |
| `BusObservation.PlanesReach` | src/hw_interface/bus/bus_accessor.cpp:133-165 | on planes that cover the layout every address of a deployment whose cores keep to their blocks is mapped |
| `BusObservation.RepositoryPlanes` | src/hw_interface/bus/bus_accessor.cpp:54-90 | with the default page counts the control plane covers the repository's address map, the ROM plane only five whole cores, and it ends before the seventh |
| `BusObservation.CallsCarryOut` | src/deployment/deployer_base.cpp:19-31 | the accessor calls of a list of effects carry out exactly its stores and log exactly its operations |
| `ReferenceSystem.WritesExpected` | testing/deployment/hil_deployer_v2.cpp:3027 | the modelled deployment of that system writes the fourteen address and value pairs the file expects before the start write |
| `ReferenceSystem.OutputsExpected` | testing/deployment/hil_deployer_v2.cpp:3028 | the label table has the one output label the file expects and no other |
| `ReferenceSystem.InputsExpected` | testing/deployment/hil_deployer_v2.cpp:3030 | the input table is the one the file expects |
| `ReferenceSystem.RunsSafelyIff` | src/deployment/hil_deployer.cpp:122-127 | that system never collides with itself if and only if its one program takes at most 99999910 cycles |
| `ReferenceSystem.PeriodUnguarded` | src/deployment/hil_deployer.cpp:122-127 | a specification whose written period is one cycle too short, so that it collides with itself |
| `TwoCoreSystem.WritesExpected` | testing/deployment/hil_deployer_v2.cpp:4661-4763 | the modelled deployment of the two-core system, with a second core of 29 cycles at 11 channels, writes the address and value pairs the test lists after the programs: two tables with handed-over initial values, a constant on two channels, offsets 121 and 2, a period of 1000000 and both channel counts |
| `ReferencePhases.RegisterMap` | testing/hil_addresses.hpp:20-112 | every register of sequencer, scope, noise generator, cores, DMA and constant engine, and every program's address, is where the repository's map of the logic has it |
| `ReferencePhases.DiversifiedExpected` | testing/deployment/hil_deployer_v2.cpp:3219-3458 | two constants with a value for each of two channels give the twelve writes of the test, each channel its own value |
| `ReferencePhases.RandomsExpected` | testing/deployment/hil_deployer_v2.cpp:3622-3832 | two random inputs on two channels give the five writes of the test |
| `ReferencePhases.MemoriesExpected` | testing/deployment/hil_deployer_v2.cpp:3459-3621 | a vector memory on two channels and a scalar one give the writes of the tests |
| `ReferencePhases.SelectExpected` | testing/deployment/hil_deployer_v2.cpp:2410-2603 | selecting channel 1 of the output writes the test's word to the test's register |
| `Failures.TableOverwritten` | src/deployment/deployer_base.cpp:141-148 | an accepted specification with five channels whose fifth memory word replaces a mapping word, so that its table decodes wrongly |
| `Failures.VectorSpares` | src/deployment/deployer_base.cpp:141-148 | at the repository's offsets a vector keeps off the table if and only if it has at most four channels or an address past the table's words, and off the constant engine if and only if it has at most eight or an address of at least four |
| `Failures.SeventeenEntries` | src/deployment/deployer_base.cpp:68-75 | an accepted specification with seventeen entries whose table decodes wrongly |
| `Failures.InitialInherited` | src/deployment/deployer_base.cpp:86-92 | two specifications of which the second, deployed after the first, programs an initial value it never mentions |
| `Regions.RepositoryLayoutIsClear` | testing/hil_addresses.hpp:132-152 | the address map of the repository has no overlapping windows, with all the noise outputs that fit below the waveform generator |
| `Regions.BlocksSeen` | src/deployment/hil_deployer.cpp:86-90 | stores that stay in each core's block are seen from any part of a block as its own core's only |
| `Regions.DeployAcceptedIff` | src/deployment/hil_deployer.cpp:36-109 | a deployment runs to its end if and only if there are at most 32 cores and all entries are in range |
| `FinalLog.LogParts` | src/deployment/hil_deployer.cpp:58-106 | an accepted deployment stores the tables, memories, inputs, sequencer and cores, in this order |
| `Deployer.HilDeployer.Deploy` | src/deployment/hil_deployer.cpp:36-109 | the log and all tables after the call, including what an exception leaves and what survives from earlier calls |
| `Deployer.HilDeployer.GetHardwareSimData` | src/deployment/hil_deployer.cpp:203-233 | served from the log when the hash matches, else from a sunk deployment; sink mode is restored exactly when that succeeds |
| `Deployer.HilDeployer.SetupOutputEntry` | src/deployment/deployer_base.cpp:48-108 | rejects exactly the entries out of range, and otherwise has the effects of the entry |
| `Deployer.HilDeployer.SetupOutputDma` | src/deployment/deployer_base.cpp:33-46 | a core's table up to the first rejected entry, and the number of its entries |
| `Deployer.HilDeployer.SetupMemories` | src/deployment/deployer_base.cpp:122-156 | one word per channel, or a single word, per initialisation |
| `Deployer.HilDeployer.SetupInput` | src/deployment/deployer_base.cpp:158-229 | the effects of one channel of a constant or random input |
| `Deployer.HilDeployer.SetupWholeInput` | src/deployment/hil_deployer.cpp:289-369 | the three ways of spreading an input over channels, with the erased list heads and the label updates |
| `Deployer.HilDeployer.SetupInputs` | src/deployment/hil_deployer.cpp:276-382 | the effects of all inputs of all cores and the running number of random inputs |
| `Deployer.HilDeployer.SetInput` | src/deployment/deployer_base.cpp:231-243 | writes every known input that matches and nothing else |
| `Deployer.HilDeployer.SetupInterconnectIv` | src/deployment/hil_deployer.cpp:235-274 | the table of initial values after the connections, on top of what was there |
| `Deployer.HilDeployer.CalculateTimebaseDivider` | src/deployment/hil_deployer.cpp:384-405 | terminates, returns timebase over rate per core, and leaves the least divider from its start value at which no rated core is too fast |
| `Deployer.HilDeployer.CalculateTimebaseShift` | src/deployment/hil_deployer.cpp:407-452 | the offsets by program and the sum of all slots, in 32-bit arithmetic |
| `Deployer.HilDeployer.SetupSequencer` | src/deployment/hil_deployer.cpp:111-134 | the sequencer writes for given dividers and offsets |
| `Deployer.HilDeployer.SetupCores` | src/deployment/hil_deployer.cpp:136-142 | the channel count of every core, by name |
| `Deployer.HilDeployer.LoadPrograms` | src/deployment/hil_deployer.cpp:63-72 | loads every program and records index, order and channels under its name, a later program of a name replacing an earlier one |
| `Deployment.RecordedLast` | src/deployment/hil_deployer.cpp:63-72 | the index, order and channels used for a program are those of the last program of its name |
| `Deployer.HilDeployer.FoldTimebase` | src/deployment/hil_deployer.cpp:73-75 | the fold through uint32_t into an int is the least common multiple if and only if that is below 2^31 |
| `Deployer.HilDeployer.SelectOutput` | src/deployment/hil_deployer.cpp:171-183 | writes the selector of the first entry for the output, or fails without a write when there is none |
| `DmaTable.DecodesIffNoSpill` | src/deployment/deployer_base.cpp:33-108 | decoding a core's registers gives its entries if and only if no mapping word past the sixteenth spoils a format word |
| `DmaTable.DecodesAs` | src/deployment/deployer_base.cpp:33-108 | what a core's registers decode to for any number of entries |
| `DmaTable.RejectsExactlyOutOfRange` | src/deployment/deployer_base.cpp:50-61 | a table is accepted if and only if all its entries are in range |
| `DmaTable.UnpackMapping` | src/deployment/deployer_base.cpp:64-67 | the 12/4-bit packing loses nothing |
| `DmaTable.FieldsSurviveIff` | src/deployment/deployer_base.cpp:50-67 | and the four fields come back if and only if the entry is in range, so the range check is exactly what the packing needs |
| `DmaTable.FormatReads` | src/deployment/deployer_base.cpp:94-107 | the scope reads an entry's width from its format word exactly for widths 8 to 23 and its sign there, and a float's as a signed float |
| `DmaTable.SignalNamesDiffer` | src/deployment/deployer_base.cpp:79-84 | the channels of a multichannel output get labels of their own |
| `DmaTable.TableFills` | src/deployment/deployer_base.cpp:86-92 | each connected output's initial value is in its own fill slot, and no other slot is filled |
| `DmaTable.TableReads` | src/deployment/deployer_base.cpp:69-107 | which word every register of the table area ends with, for any number of entries |
| `DmaTable.BusKeyFields` | src/deployment/deployer_base.cpp:78 | the label key determines bus address and channel |
| `CoreMemory.MemoryHolds` | src/deployment/deployer_base.cpp:122-156 | every word of a core's block is the last initialisation's that writes it, vectors wrapping their address at 256 and scalars not |
| `CoreMemory.WordOfInit` | src/deployment/deployer_base.cpp:122-156 | an initialised word that no later initialisation writes is its own initialisation's |
| `CoreMemory.MemoryRegion` | src/deployment/deployer_base.cpp:122-156 | the writes stay below offset 0x1000 and off the core's register if and only if there are at most four channels or no initialisation has a word per channel |
| `CoreMemory.MemoryInside` | src/deployment/deployer_base.cpp:122-156 | a memory stays in a part of its block if and only if every word it initialises lies there |
| `CoreMemory.MemoryOutside` | src/deployment/deployer_base.cpp:122-156 | and keeps off a part if and only if none does |
| `Sequencer.SequencerReadsBack` | src/deployment/hil_deployer.cpp:111-134 | every register the sequencer phase writes reads back as intended for up to 32 cores |
| `Sequencer.EnableWord` | src/deployment/hil_deployer.cpp:115-130 | n set bits make 2^n - 1 |
| `ConstantEngine.SlotHoldsLastCommand` | src/deployment/deployer_base.cpp:203-205 | after any list of effects, whatever was stored before, a slot holds the destination and value of the last command for it |
| `ConstantEngine.SlotAfterRun` | src/deployment/deployer_base.cpp:231-243 | for any known inputs and anything before, after any set_input calls a slot holds what the last matching call gave it, otherwise what it held |
| `ConstantEngine.OwnSlotIff` | src/deployment/deployer_base.cpp:231-243 | a known input's slot is decided by the calls that name it, in every run, if and only if it is the last known there and all others there have its names |
| `ConstantEngine.LastSetIs` | src/deployment/deployer_base.cpp:233-239 | the last value set is the float pattern of the last matching call for a float input and the word otherwise |
| `ConstantEngine.SetsOnlyIff` | src/deployment/deployer_base.cpp:233-239 | a call sets no slot but one if and only if every known input it names sits there |
| `ConstantEngine.StaleInputWritesToo` | src/deployment/deployer_base.cpp:233-239 | an input known from two specifications at different selectors writes both slots |
| `ConstantEngine.UnknownInputWritesNothing` | src/deployment/deployer_base.cpp:233-234 | a call writes nothing if and only if no known input matches it |
| `ConstantEngine.InputsKnown` | src/deployment/deployer_base.cpp:207 | every constant set at deployment becomes a known input, in order |
| `CoreInputs.SlotOfConstant` | src/deployment/hil_deployer.cpp:276-382 | over all cores and inputs a slot is named last by its own constant |
| `CoreInputs.AllCommandsAre` | src/deployment/hil_deployer.cpp:276-382 | the nested loops issue one command per constant and channel, in order |
| `CoreInputs.CommandOrigin` | src/deployment/hil_deployer.cpp:276-382 | every command belongs to one channel of one constant of one core |
| `CoreInputs.ChannelsGiven` | src/deployment/hil_deployer.cpp:299-355 | which channels a constant is set up on, and that each has a value of the input's own data: the only one or its own |
| `CoreInputs.InputPathsDiffer` | src/deployment/deployer_base.cpp:188-193 | the channels of an input of a multichannel core get paths of their own |
| `CoreInputs.RandomNamesDiffer` | src/deployment/deployer_base.cpp:211-218 | and so do those of a random input |
| `CoreInputs.BeforeBracketIs` | src/deployment/deployer_base.cpp:213-217 | the bracketed part at the end of a core name, and only that, is dropped |
| `NoiseGenerator.AllHold` | src/deployment/deployer_base.cpp:208-217 | output register i + 1 is the i-th random channel's bus address and register 0 their number |
| `Interconnect.InitialIs` | src/deployment/deployer_base.cpp:86-92 | an entry's initial value is that of its last connection to an existing input, or a stale one |
| `Interconnect.LastConnectedOf` | src/deployment/hil_deployer.cpp:239-268 | a connection that no later one replaces hands over its input's value |
| `Interconnect.ConnectedValueOf` | src/deployment/hil_deployer.cpp:240-266 | that value is the named input's data, its only value once for each channel when there are several channels |
| `Interconnect.ConnectionsIdempotent` | src/deployment/hil_deployer.cpp:235-274 | repeating the connections changes nothing |
| `Reciprocal.CheckReciprocal` | src/deployment/hil_deployer.cpp:145-169 | the flag-driven scan agrees with a recursive decoder of the words after the second separator |
| `Reciprocal.ReciprocalAtInstruction` | src/deployment/hil_deployer.cpp:145-169 | the decoder finds a reciprocal if and only if one stands where an instruction starts |
| `Reciprocal.OperandsDoNotCount` | src/deployment/hil_deployer.cpp:153-158 | changing the operand of a load-constant never changes the answer |
| `Reciprocal.CodeIs` | src/deployment/hil_deployer.cpp:148-152 | the code is what follows the second word 0xC, whatever it holds |
| `Reciprocal.OpcodeIsLow` | src/deployment/hil_deployer.cpp:154-159 | the opcode is the word modulo two to the width of the opcode field |
| `Schedule.SortSorts` | src/deployment/hil_deployer.cpp:425-427 | insertion orders the cores and keeps them, so there is a sort for the schedule lemmas, which hold for any |
| `Schedule.ShiftBounds` | src/deployment/hil_deployer.cpp:430-449 | whatever sort is used, a core starts after the slots of smaller order and within those of its own |
| `Schedule.ShiftClosedForm` | src/deployment/hil_deployer.cpp:430-449 | with distinct orders that is an equation |
| `Schedule.ShiftsFollowPermutation` | src/deployment/hil_deployer.cpp:407-452 | permuting the programs permutes the offsets with them |
| `Schedule.LastSlotEnd` | src/deployment/hil_deployer.cpp:443-445 | the last core ends exactly 88 cycles before the sum of the slots |
| `FrameRun.SafeIffDistinctNames` | src/deployment/hil_deployer.cpp:407-452 | with a period of at least the sum of the slots the run is safe for ever if and only if the names are distinct |
| `FrameRun.SafeIffGapsKept` | src/deployment/hil_deployer.cpp:111-134 | for any dividers and period, zero included, safe for ever if and only if finitely many frame distances keep the gap |
| `FrameRun.SafeIffPeriod` | src/deployment/hil_deployer.cpp:122-127 | with the first core in every frame, if and only if the period holds all slots |
| `FrameRun.SameNameCollides` | src/deployment/hil_deployer.cpp:433-449 | two programs of one name start together in frame 0 |
| `Rates.ExactRate` | src/deployment/hil_deployer.cpp:73-75 | dividing the least common multiple gives every core its exact number of firings in every window of that length |
| `Rates.DividerExact` | src/deployment/hil_deployer.cpp:400 | divider times frequency is the least common multiple, and the divider is at least 1 |
| `Rates.DividersPositive` | src/deployment/hil_deployer.cpp:384-405 | with the least common multiple as timebase no divisor register wraps if and only if the frequencies are all zero or all nonzero |
| `Rates.FoldDefinedIff` | src/deployment/hil_deployer.cpp:73-75 | with nonzero frequencies every result of the fold is representable if and only if the last one is |
| `Rates.StoredNegative` | src/deployment/hil_deployer.cpp:73-75 | at 50000 and 50001 Hz the timebase the code keeps is negative |
| `Rates.LeastDividerStep` | src/deployment/hil_deployer.cpp:391-399 | the divider stays least as the loop takes in one more core |
| `Rates.LeastDividerStays` | src/deployment/hil_deployer.cpp:397-399 | searching again from the divider found leaves it |
| `Arithmetic.LcmAllLeast` | src/deployment/hil_deployer.cpp:73-75 | the least common multiple divides a number if and only if every frequency does; FoldTimebase says when the code holds it |
| `BusMap.HilBusMap.GetFreeAddress` | src/deployment/hil_bus_map.cpp:57-68 | the original address if free, else the least free one from the map size up, never failing below 32768 entries |
| `BusMap.HilBusMap.TranslateOutput` | src/deployment/hil_bus_map.cpp:71-83 | the address of the first entry that drives the output |
| `BusMap.DriverFound` | src/deployment/hil_bus_map.cpp:71-83 | an output is found if and only if some entry has its core, name and channel, and then the first that has |
| `BusMap.FreeAddressExists` | src/deployment/hil_bus_map.cpp:40-46 | fewer than 32768 entries leave a free address at or above their number |
| `BusMap.AllocatorBoundTight` | src/deployment/hil_bus_map.cpp:62-67 | with 32768 entries there may be none |
| `Bus.BusAccessor.WriteRegister` | src/hw_interface/bus/bus_accessor.cpp:100-112 | direct and proxied writes as one step of the accessor's state, unmapped addresses included |
| `Bus.BusAccessor.ReadRegister` | src/hw_interface/bus/bus_accessor.cpp:114-131 | reads, logged, with a made-up value in sink mode |
| `Bus.BusAccessor.LoadProgram` | src/hw_interface/bus/bus_accessor.cpp:167-187 | the word-by-word load as one step, logged only once complete |
| `Bus.BusAccessor.GetHardwareSimulationData` | src/hw_interface/bus/bus_accessor.cpp:141-157 | the two texts of the log |
| `Bus.DirectWrite` | src/hw_interface/bus/bus_accessor.cpp:100-105 | a direct write out of sink mode changes its own register and no other, and is logged |
| `Bus.ProxiedWrite` | src/hw_interface/bus/bus_accessor.cpp:106-111 | a proxied one leaves the target address in the register above the proxy and the data in the proxy, and nothing else |
| `Bus.RunReplaysIssued` | src/hw_interface/bus/bus_accessor.cpp:100-187 | after any run of calls and brackets both planes hold the replay of exactly the calls issued outside brackets |
| `Bus.RunAliveIff` | src/hw_interface/bus/bus_accessor.cpp:100-187 | a run of calls and brackets is survived if and only if every address stored to or read outside brackets is mapped |
| `Bus.BracketRestores` | includes/hw_interface/bus/bus_accessor.hpp:54-55 | a bracket changes neither plane and restores the mode |
| `Bus.NestedBracketStaysSunk` | includes/hw_interface/bus/bus_accessor.hpp:54-55 | after two disables no run of calls, enables and disables leaves sink mode |
| `Bus.SinkCanBeLeftIff` | includes/hw_interface/bus/bus_accessor.hpp:54-55 | after any run sink mode can be left if and only if no two disables lack an enable between them |
| `Bus.LogIsComplete` | includes/hw_interface/bus/bus_accessor.hpp:51-56 | the log is every call since the last clear, sunk or not |
| `Bus.AliveIffMapped` | src/hw_interface/bus/bus_accessor.cpp:133-165 | stores are all carried out if and only if every address is mapped |
| `Bus.CallsAliveIff` | src/hw_interface/bus/bus_accessor.cpp:100-187 | a process survives a list of calls if and only if it survives their stores on both planes and their reads |
| `Bus.DumpRebuildsPlanes` | src/hw_interface/bus/bus_accessor.cpp:141-157 | parsing the dumped texts and replaying their lines word by word rebuilds both planes |
| `SimulationText.TextParsesBack` | src/hw_interface/bus/bus_accessor.cpp:141-157 | a dump parses back to exactly its lines |
| `SimulationText.TextInjective` | src/hw_interface/bus/bus_accessor.cpp:141-157 | two lists of lines print alike only if they are the same |
| `SimulationText.DumpIsFaithful` | src/hw_interface/bus/bus_accessor.cpp:141-157 | the ROM text always determines what replaying the log stores, the control text if and only if every write is direct |
| `SimulationText.ProxiedWriteDumpsAsDirect` | src/hw_interface/bus/bus_accessor.cpp:150-153 | two logs that store different words and dump alike |
| `SimulationText.LineExpected` | testing/deployment/hil_deployer_v2.cpp:3027 | the decimal line of the channel-count write is the one the test's text holds |
| `SimulationText.DecimalsDiffer` | src/hw_interface/bus/bus_accessor.cpp:141-157 | different numbers print differently, also between the same texts |
| `ChannelFormat.CodecIffWidthFits` | src/deployment/deployer_base.cpp:110-116 | the scope reads back every width and flag the deployer wrote if and only if the width is 8 to 23 |
| `ChannelFormat.FloatWidthReadsSixteen` | src/deployment/deployer_base.cpp:94-99 | what the scope makes of the format of a float output |
| `ChannelFormat.SetSignedReads` | includes/hw_interface/channel_metadata.hpp:33-39 | the sign flag reads back as set and nothing else changes |
| `ChannelFormat.SetSizeReads` | includes/hw_interface/channel_metadata.hpp:40-43 | a width reads back if and only if it is 8 to 23, and nothing else changes |
| `ChannelFormat.SetFloatReads` | includes/hw_interface/channel_metadata.hpp:44-50 | the float flag likewise |
| `Scope.SignExtendIsTwosComplement` | includes/hw_interface/scope_manager.hpp:60-71 | mask, xor and subtract is two's complement decoding for every width up to 31 |
| `Scope.SignExtendInvertsTruncation` | includes/hw_interface/scope_manager.hpp:60-71 | and undoes truncation to the width |
| `Scope.WordFields` | includes/hw_interface/scope_manager.hpp:56-58 | data, tag and format come back from the word they were put in |
| `Scope.ScaleWordMeans` | src/hw_interface/scope_manager.cpp:109-130 | every word of any width, flags and factor is scaled to its meaning: a float's own bits, or the factor times the two's complement or unsigned value of as many bits as its format says |
| `Scope.ScopeManager.ShuntData` | src/hw_interface/scope_manager.cpp:74-107 | output channel c is the meanings of the samples tagged c, in order, each times the factor of c, whatever lies past the factor table for a tag of 6 |
| `Scope.DemuxElement` | src/hw_interface/scope_manager.cpp:82-105 | every sample of a channel appears once, at the place its order gives it |
| `Scope.Conservation` | src/hw_interface/scope_manager.cpp:82-105 | the six outputs hold exactly the meanings of the samples tagged 0 to 5, each as often as sent and times its own channel's factor, and with the skipped words they make up the buffer |
| `Scope.FillBuffer` | testing/kernel_emulator_standalone.cpp:64-93 | the interleaved buffer, word by word |
| `Scope.MuxDemux` | testing/kernel_emulator_standalone.cpp:86-93 | demultiplexing an interleaved buffer with any factor gives every channel in order, wrapped to sixteen bits and times the factor |
| `Scope.MuxDemuxRoundTrip` | src/hw_interface/scope_manager.cpp:74-130 | and gives the channel times the factor if and only if its samples fit sixteen bits or the factor is zero |

## Left out

- Deployer.HilDeployer.SetupInput: waveform inputs (square, sine, triangle) have no effect, their generator being outside the modelled inputs.
- Deployer.HilDeployer.Deploy: the same for waveform inputs, with the exception that a sine or triangle raises; the debug mode.
- Deployment.Deployable: from 32 cores down it asks for what keeps the code defined: a nonempty program list, a timebase below 2^31 and a period below 2^32 (conversions of other values are undefined), initial values and memories as long as they are read, and a value for each constant.
- The fcore compiler, emulator and dispatcher: programs, slots, inputs and lengths are given, opcodes are parameters.
- JSON, schema validation, endpoints, the layout parser, logging and signal handlers.
- `fpga_bridge`: the FPGA counts as loaded, so every write reaches the accessor. `custom_deployer` is not modelled.
- mmap, device files, sleeps, the mutex, and that `sink_mode` is shared by all accessors of the process.
- An unmapped address ends the modelled process; the code only checks the lower bound and leaves the upper one to the memory manager.
- Floating point: frequencies and scaling factors are reals, float constants and samples their bit patterns.
- Sums of lengths, offsets and divider - 1 wrap at 32 bits as in the code; the period and the timebase are below the bounds above.
- The hash of a specification is an arbitrary function, so two specifications may share one.
- The text of the outputs and inputs tables in the simulation data: they are compared as tables.
- The deployer's base class and its accessor's log and mode are fields of the one class `HilDeployer`; `BusObservation` relates that log to the accessor's.
- `std::ranges::sort` is any function that sorts, `std::gcd` is modelled by subtraction.
- `is_io_address_free`, scaling-factor and channel-status setters, acquisition settings, emulated data and filters: one-line members.
- DeployedLabels.SelectorLabelsOutput: one direction, because a random input's label that overrides an output's may happen to spell the same name.
- DeployedSystem.DeploymentMeansSpecification: cores whose table or memory leaves the core's own block, or that share an index or a name.
- TableOverlay.TableSurvivesIff: a memory that writes the data word of the fill port, whose effect depends on the slot then selected.
