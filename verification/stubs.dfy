/**
 * The instance-scoped entry points whose bodies are still placeholders in
 * the bridge (parameters, MIDI, presets, audio, state). What they do is
 * check their pointer arguments and then return a fixed result, writing a
 * fixed value to an output where they have one. Float and double values,
 * audio samples and MIDI bytes are never looked at and are not modelled;
 * a raw pointer the bridge does not write is a Ptr, a C string an Option.
 */
module Stubs {
  import opened Abi
  import opened Memory
  import Engine

  /** The five MIDI entry points, by the integer arguments they take. */
  datatype MidiMessage =
    | NoteOn(note: Int32, channel: Int32)          // sch_instrument_note_on
    | NoteOff(note: Int32, channel: Int32)         // sch_instrument_note_off
    | AllNotesOff(channel: Int32)                  // sch_instrument_all_notes_off
    | PitchBend(channel: Int32)                    // sch_instrument_pitch_bend
    | ControlChange(controller: Int32, channel: Int32) // sch_instrument_control_change

  /**
   * sch_instrument_get_parameter_count: a null handle or out_count is
   * rejected with nothing written; otherwise the count is 0.
   */
  method GetParameterCount(h: Engine.Instance?, out: Cell?<Int32>) returns (r: Status)
    modifies out
    ensures r == InvalidArg <==> h == null || out == null
    ensures r != InvalidArg ==> r == Ok && out.value == 0
    ensures r == InvalidArg && out != null ==> out.value == old(out.value)
  {
    if h == null || out == null {
      return InvalidArg;
    }
    out.value := 0;
    r := Ok;
  }

  /**
   * sch_instrument_get_parameter_info: NotImplemented once the handle and
   * out_info are set, whatever the index; out_info is never written.
   */
  function GetParameterInfo(h: Engine.Instance?, index: Int32, outInfo: Ptr): (r: Status)
    ensures r == InvalidArg <==> h == null || outInfo == NULL
    ensures r != InvalidArg ==> r == NotImplemented
  {
    if h == null || outInfo == NULL then InvalidArg else NotImplemented
  }

  /** sch_instrument_get_parameter_value: NotImplemented once all three pointers are set. */
  function GetParameterValue(h: Engine.Instance?, address: Option<seq<Byte>>, outValue: Ptr): (r: Status)
    ensures r == InvalidArg <==> h == null || address.None? || outValue == NULL
    ensures r != InvalidArg ==> r == NotImplemented
  {
    if h == null || address.None? || outValue == NULL then InvalidArg else NotImplemented
  }

  /**
   * sch_instrument_set_parameter_value (smoothed false) and
   * sch_instrument_set_parameter_smooth (smoothed true): Ok once the
   * handle and address are set; the value and ramp time are ignored.
   */
  function SetParameter(h: Engine.Instance?, address: Option<seq<Byte>>, smoothed: bool): (r: Status)
    ensures r == InvalidArg <==> h == null || address.None?
    ensures r != InvalidArg ==> r == Ok
  {
    if h == null || address.None? then InvalidArg else Ok
  }

  /**
   * The MIDI entry points: Ok for any non-null handle. The handle is the
   * instance itself, so the check for a null instance after it never
   * fires and EngineNull is never returned.
   */
  function SendMidi(h: Engine.Instance?, message: MidiMessage): (r: Status)
    ensures r == InvalidArg <==> h == null
    ensures r != InvalidArg ==> r == Ok
  {
    if h == null then InvalidArg else Ok
  }

  /**
   * sch_instrument_get_presets: null identifier, out_presets or out_count
   * is rejected with nothing written; otherwise the list is empty: NULL
   * and 0. The manager is not consulted.
   */
  method GetPresets(identifier: Option<seq<Byte>>, outPresets: Cell?<Ptr>, outCount: Cell?<nat>) returns (r: Status)
    modifies outPresets, outCount
    ensures r == InvalidArg <==> identifier.None? || outPresets == null || outCount == null
    ensures r != InvalidArg ==> r == Ok && outPresets.value == NULL && outCount.value == 0
    ensures r == InvalidArg ==> && (outPresets != null ==> outPresets.value == old(outPresets.value))
                                && (outCount != null ==> outCount.value == old(outCount.value))
  {
    if identifier.None? || outPresets == null || outCount == null {
      return InvalidArg;
    }
    outPresets.value := NULL;
    outCount.value := 0;
    r := Ok;
  }

  /** sch_instrument_load_preset: Ok once the handle and preset name are set. */
  function LoadPreset(h: Engine.Instance?, presetName: Option<seq<Byte>>): (r: Status)
    ensures r == InvalidArg <==> h == null || presetName.None?
    ensures r != InvalidArg ==> r == Ok
  {
    if h == null || presetName.None? then InvalidArg else Ok
  }

  /** sch_instrument_save_preset: Ok once the handle and preset name are set; the category may be null. */
  function SavePreset(h: Engine.Instance?, presetName: Option<seq<Byte>>, category: Option<seq<Byte>>): (r: Status)
    ensures r == InvalidArg <==> h == null || presetName.None?
    ensures r != InvalidArg ==> r == Ok
  {
    if h == null || presetName.None? then InvalidArg else Ok
  }

  /** sch_instrument_process: Ok once the handle and audio buffer are set; the MIDI data may be null. */
  function Process(h: Engine.Instance?, audioBuffer: Ptr, numSamples: Int32, midiData: Ptr, midiSize: Int32): (r: Status)
    ensures r == InvalidArg <==> h == null || audioBuffer == NULL
    ensures r != InvalidArg ==> r == Ok
  {
    if h == null || audioBuffer == NULL then InvalidArg else Ok
  }

  /**
   * sch_instrument_get_audio: a null handle, buffer or out_samples is
   * rejected with nothing written; otherwise no samples are produced.
   */
  method GetAudio(h: Engine.Instance?, audioBuffer: Ptr, numSamples: Int32, outSamples: Cell?<Int32>) returns (r: Status)
    modifies outSamples
    ensures r == InvalidArg <==> h == null || audioBuffer == NULL || outSamples == null
    ensures r != InvalidArg ==> r == Ok && outSamples.value == 0
    ensures r == InvalidArg && outSamples != null ==> outSamples.value == old(outSamples.value)
  {
    if h == null || audioBuffer == NULL || outSamples == null {
      return InvalidArg;
    }
    outSamples.value := 0;
    r := Ok;
  }

  /**
   * sch_instrument_get_state: a null handle or out_json is rejected with
   * nothing written; otherwise *out_json is NULL, which the caller need not
   * free.
   */
  method GetState(h: Engine.Instance?, outJson: Cell?<Ptr>) returns (r: Status)
    modifies outJson
    ensures r == InvalidArg <==> h == null || outJson == null
    ensures r != InvalidArg ==> r == Ok && outJson.value == NULL
    ensures r == InvalidArg && outJson != null ==> outJson.value == old(outJson.value)
  {
    if h == null || outJson == null {
      return InvalidArg;
    }
    outJson.value := NULL;
    r := Ok;
  }

  /**
   * sch_instrument_set_state: Ok once the handle and json are set. The
   * text is not parsed, so ParseFailed is never returned.
   */
  function SetState(h: Engine.Instance?, json: Option<seq<Byte>>): (r: Status)
    ensures r == InvalidArg <==> h == null || json.None?
    ensures r != InvalidArg ==> r == Ok
  {
    if h == null || json.None? then InvalidArg else Ok
  }

  /**
   * With a live handle and every pointer set, no placeholder entry point
   * fails: the parameter readers report NotImplemented and the rest Ok.
   */
  lemma PlaceholdersNeverFail(h: Engine.Instance, index: Int32, p: Ptr, s: seq<Byte>, m: MidiMessage, smoothed: bool,
                              n: Int32, midi: Ptr, midiSize: Int32, category: Option<seq<Byte>>)
    requires p != NULL
    ensures GetParameterInfo(h, index, p) == NotImplemented
    ensures GetParameterValue(h, Some(s), p) == NotImplemented
    ensures SetParameter(h, Some(s), smoothed) == Ok && SendMidi(h, m) == Ok
    ensures LoadPreset(h, Some(s)) == Ok && SavePreset(h, Some(s), category) == Ok
    ensures Process(h, p, n, midi, midiSize) == Ok && SetState(h, Some(s)) == Ok
  {
  }

  /** Every placeholder entry point rejects a null handle, whatever its other arguments. */
  lemma NullHandleRejected(index: Int32, p: Ptr, s: Option<seq<Byte>>, m: MidiMessage, smoothed: bool,
                           n: Int32, midi: Ptr, midiSize: Int32, category: Option<seq<Byte>>)
    ensures GetParameterInfo(null, index, p) == InvalidArg
    ensures GetParameterValue(null, s, p) == InvalidArg
    ensures SetParameter(null, s, smoothed) == InvalidArg && SendMidi(null, m) == InvalidArg
    ensures LoadPreset(null, s) == InvalidArg && SavePreset(null, s, category) == InvalidArg
    ensures Process(null, p, n, midi, midiSize) == InvalidArg && SetState(null, s) == InvalidArg
  {
  }
}
