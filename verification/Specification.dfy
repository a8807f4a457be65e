/**
 What the dispatcher hands to the deployer, as values. Float constants stand as their 32-bit patterns.
 */
module Specification {

  datatype Option<+T> = None | Some(value: T)

  /** A uint32_t. */
  type Word = x: int | 0 <= x < 0x1_0000_0000

  datatype SourceType = Constant | TimeSeries | Random | OtherSource

  /** A core input; `address` is its first bus address, `data` one word per channel, or one for all. */
  datatype Input = Input(name: string, source: SourceType, address: nat, data: seq<Word>, isFloat: bool)

  datatype Program = Program(
    name: string,
    index: nat,
    order: nat,
    samplingFrequency: Word,
    channels: nat,
    binary: seq<Word>,
    fixedLength: nat,
    perChannelLength: nat,
    inputs: seq<Input>)

  /** One connection of the interconnect, from a core output to a bus destination. */
  datatype Slot = Slot(
    sourceId: string,
    sourceName: string,
    sourceIo: nat,
    sourceChannel: nat,
    destinationId: string,
    destinationName: string,
    destinationBus: nat,
    destinationChannel: nat,
    isFloat: bool,
    width: nat,
    isSigned: bool)

  datatype MemoryInit = MemoryInit(address: nat, values: seq<Word>)

  datatype Spec = Spec(
    programs: seq<Program>,
    slots: seq<Slot>,
    inputs: map<string, seq<Input>>,
    memories: map<string, seq<MemoryInit>>)

  /** Base addresses and offsets of the logic. */
  datatype Layout = Layout(
    coresRom: nat,
    coresControl: nat,
    coresInputs: nat,
    noiseGenerator: nat,
    controller: nat,
    scopeMux: nat,
    hilControl: nat,
    dmaOffset: nat,
    timebaseOffset: nat,
    sequencerOffset: nat,
    romStride: nat,
    controlStride: nat)

  function Inputs(spec: Spec, core: string): seq<Input> {
    if core in spec.inputs then spec.inputs[core] else []
  }

  function Memories(spec: Spec, core: string): seq<MemoryInit> {
    if core in spec.memories then spec.memories[core] else []
  }

  /** Arithmetic on uint32_t. */
  function Wrap32(x: int): Word {
    x % 0x1_0000_0000
  }
}
