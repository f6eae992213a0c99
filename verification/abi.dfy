/**
 * The C types of the instrument bridge header: the result codes, the
 * instrument type enum with its fixed numeric values, and the three
 * caller-owned output structs. Pointers are addresses in the abstract
 * heap of module Memory; address 0 is the null pointer.
 */
module Abi {

  /** One byte of UTF-8 text. */
  newtype Byte = x: int | 0 <= x < 0x100

  /** C `int` (32-bit two's complement). */
  newtype Int32 = x: int | -0x8000_0000 <= x < 0x8000_0000

  /** C `int64_t`. */
  newtype Int64 = x: int | -0x8000_0000_0000_0000 <= x < 0x8000_0000_0000_0000

  /** A heap address; NULL is the null pointer. */
  newtype Ptr = x: int | 0 <= x

  const NULL: Ptr := 0

  datatype Option<+T> = None | Some(value: T)

  /**
   * sch_result_t. Only the names are modelled: the numeric values live in
   * the engine bridge header, which is not part of this model.
   */
  datatype Status =
    | Ok
    | InvalidArg
    | NotFound
    | OutOfMemory
    | Internal
    | EngineNull
    | NotImplemented
    | ParseFailed

  /** sch_instrument_type_t. */
  datatype InstrumentKind = BuiltinSynth | ExternalPlugin | AudioUnit

  /** The value the C enum gives each kind. */
  function KindCode(k: InstrumentKind): (n: int)
    ensures 0 <= n <= 2
    ensures n == 0 <==> k == BuiltinSynth
  {
    match k
    case BuiltinSynth => 0
    case ExternalPlugin => 1
    case AudioUnit => 2
  }

  /** Reads an enum value back; only 0, 1 and 2 name a kind. */
  function KindOfCode(n: int): (k: Option<InstrumentKind>)
    ensures k.Some? <==> 0 <= n <= 2
  {
    if n == 0 then Some(BuiltinSynth)
    else if n == 1 then Some(ExternalPlugin)
    else if n == 2 then Some(AudioUnit)
    else None
  }

  /** The enum values are a bijection between the kinds and {0, 1, 2}. */
  lemma KindCodeRoundTrip(k: InstrumentKind, n: int)
    ensures KindOfCode(KindCode(k)) == Some(k)
    ensures KindOfCode(n) == Some(k) ==> KindCode(k) == n
  {
  }

  /**
   * sch_instrument_info_t: five caller-freed text fields, the type, two
   * flags and three counts.
   */
  datatype InfoT = InfoT(
    identifier: Ptr,
    name: Ptr,
    category: Ptr,
    manufacturer: Ptr,
    version: Ptr,
    kind: InstrumentKind,
    isInstrument: bool,
    supportsMidi: bool,
    maxVoices: Int32,
    numInputs: Int32,
    numOutputs: Int32)
  {
    /** The text fields the caller must free, in declaration order. */
    function Texts(): seq<Ptr> {
      [identifier, name, category, manufacturer, version]
    }

    /** A max_voices of 0 means unlimited polyphony. */
    predicate UnlimitedVoices() {
      maxVoices == 0
    }
  }

  /** sch_parameter_info_t without its three float fields. */
  datatype ParamInfoT = ParamInfoT(address: Ptr, name: Ptr, isAutomatable: bool, unit: Ptr)
  {
    /** The text fields the caller must free. */
    function Texts(): seq<Ptr> {
      [address, name, unit]
    }
  }

  /** sch_preset_info_t. */
  datatype PresetT = PresetT(name: Ptr, category: Ptr, createdTime: Int64)
  {
    /** The text fields the caller must free. */
    function Texts(): seq<Ptr> {
      [name, category]
    }
  }
}
