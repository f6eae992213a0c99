/**
 * The JUCE side of the bridge, seen only through what the bridge uses:
 * the instrument descriptor the manager hands out, its type enum, the
 * manager and instance objects, and the outcome of a manager call.
 */
module Engine {
  import opened Abi

  /**
   * InstrumentType of the instrument manager. The manager's header is not
   * part of this model; Unlisted stands for any variant the bridge's switch
   * does not name.
   */
  datatype InstrumentType =
    | BuiltInSynthesizer
    | ExternalPlugin
    | AudioUnit
    | Unlisted(tag: nat)

  /** InstrumentInfo; its strings are given as their UTF-8 bytes. */
  datatype InstrumentInfo = InstrumentInfo(
    identifier: seq<Byte>,
    name: seq<Byte>,
    category: seq<Byte>,
    manufacturer: seq<Byte>,
    version: seq<Byte>,
    kind: InstrumentType,
    isInstrument: bool,
    supportsMidi: bool,
    maxVoices: Int32,
    numInputs: Int32,
    numOutputs: Int32)

  /**
   * What a call into the manager produced: a value, or a std::exception
   * that the bridge catches.
   */
  datatype Reply<+T> = Returned(value: T) | Threw

  /** The process-wide InstrumentManager; its catalogue is opaque here. */
  class Manager {
    constructor ()
    {
    }
  }

  /** One running InstrumentInstance, owned by whoever holds its handle. */
  class Instance {
    constructor ()
    {
    }
  }
}
