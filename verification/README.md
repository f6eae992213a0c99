# Instrument bridge: a verified model

This project models the C-ABI bridge between a Swift front end and the
JUCE `InstrumentManager` of the White Room audio engine
(`juce_backend/src/ffi/sch_instrument_ffi.cpp` and its header
`sch_instrument_ffi.h`). The bridge does four things:

- It converts manager-side instrument descriptors into C structs whose
  text fields are `malloc`'d, caller-owned C strings.
- It returns arrays of such structs.
- It hands out instrument instances as opaque handles.
- It provides the release helpers that give all of this memory back.

Every entry point checks its pointer arguments first. It then translates a
caught `std::exception` into `SCH_ERR_INTERNAL`.

The model is written in Dafny. It has these modules:

- **`Abi`**: the header's types. This covers the result codes, the
  `sch_instrument_type_t` enum with its fixed values, and the three output
  structs. Pointers are addresses, with 0 as NULL.
- **`Engine`**: what the bridge sees of the manager. This is the descriptor
  and its type enum, the manager and instance objects, and `Reply`, the
  outcome of a manager call: a value or a thrown `std::exception`.
- **`Memory`**: the C heap, as a class holding the map of live blocks.
  `Malloc` may refuse any request, and `Free` must be given a live block.
  A `Cell` models a caller's output location. This module also defines the
  ownership predicates: which text blocks an array's elements own, and when
  an array may be released.
- **`Convert`**: `juceStringToAllocatedCString`, `convertInstrumentType`,
  `convertInstrumentInfo`, and the allocate-and-fill loop shared by the
  three list operations.
- **`Release`**: the four `sch_free_*` helpers and the rollback of a failed
  list operation.
- **`Bridge`**: a class holding the process-wide state. This is the lazily
  created manager, the heap, and the ghost sets of live and destroyed
  instances. It also holds the discovery, `load`, `destroy` and
  `is_available` entry points.
- **`Stubs`**: the placeholder entry points (parameters, MIDI, presets,
  audio, state), down to their argument checks and fixed results.
- **`Protocol`**: a caller that follows the ownership rules. It ends with
  the heap and the live handles exactly as it found them.

Manager answers are parameters of the entry points. These are the catalogue
for a list call, the descriptor or its absence for `get_info`, whether
`createInstance` produced an instance, and the availability flag. Each can
also be `Threw`.

Behaviour of the code worth noting:

- A refused string allocation inside a conversion is not reported. The
  field is left NULL, the conversion still returns `SCH_OK`, and nothing is
  rolled back.
- Consequently the conversion into an array element always succeeds. The
  rollback branches of the three list operations
  (`sch_instrument_ffi.cpp:167-175`, `223-230`, `308-315`) can never run.
  `Convert.FillSlot` proves this, and `Release.Rollback` models the
  branch on its own.
- Only null pointers are rejected as invalid arguments. An empty
  identifier, category, query or preset name is passed on.
- `sch_free_instrument_array` and `sch_free_preset_array` called with a
  non-null block and a count of 0 still free the block.
- Only `std::exception` is caught. Error translation is not total.
- Parameter info and value return `SCH_ERR_NOT_IMPLEMENTED`, where the
  header documents `SCH_ERR_INVALID_ARG` and `SCH_ERR_NOT_FOUND`.
  `set_state` returns `SCH_OK` and never `SCH_ERR_PARSE_FAILED`.
  `load_preset` never returns `SCH_ERR_NOT_FOUND`.

## Model

| member | source | states |
|---|---|---|
| Abi.KindCode | juce_backend/src/ffi/sch_instrument_ffi.h:42-46 | each instrument type has an enum value in 0..2, and only the built-in synth has 0 |
| Abi.KindOfCode | juce_backend/src/ffi/sch_instrument_ffi.h:42-46 | an integer names an instrument type exactly when it is 0, 1 or 2 |
| Abi.KindCodeRoundTrip | juce_backend/src/ffi/sch_instrument_ffi.h:42-46 | the enum values are a bijection between the three types and {0, 1, 2} |
| Convert.ConvertType | juce_backend/src/ffi/sch_instrument_ffi.cpp:57-70 | total; each of the three named manager types maps to the C type of the same meaning, and every other variant falls back to BUILTIN_SYNTH |
| Convert.ConvertTypeInvertsEmbed | juce_backend/src/ffi/sch_instrument_ffi.cpp:57-70 | converting a C type's manager counterpart gives that C type back |
| Convert.ToCString | juce_backend/src/ffi/sch_instrument_ffi.cpp:43-54 | empty text gives NULL and allocates nothing; other text gives a fresh block holding its bytes and a NUL, or NULL with the heap unchanged when malloc refuses; no error is reported |
| Convert.AppendText | juce_backend/src/ffi/sch_instrument_ffi.cpp:81-85 | each text conversion in a struct adds its block, if any, fresh and distinct from those added before, and changes no live block |
| Convert.AddedText | juce_backend/src/ffi/sch_instrument_ffi.cpp:81-85 | one more conversion keeps the set of added blocks exact and its pointers distinct |
| Convert.ConvertFields | juce_backend/src/ffi/sch_instrument_ffi.cpp:81-91 | the five text fields are conversions of the descriptor's strings, the type is ConvertType of its type, the flags and counts are copied, and the heap grew by exactly the distinct fresh text blocks |
| Convert.ConvertInfo | juce_backend/src/ffi/sch_instrument_ffi.cpp:73-94 | a null destination gives INVALID_ARG with nothing written or allocated; any other gives OK with the destination holding a conversion whose texts are fresh, distinct and the only new blocks, and no other live block changed |
| Convert.ConvertedStep | juce_backend/src/ffi/sch_instrument_ffi.cpp:161-165 | writing element i keeps elements 0..i-1 converted |
| Convert.OwningStep | juce_backend/src/ffi/sch_instrument_ffi.cpp:161-165 | writing element i keeps each element's texts owned by that element only and fresh |
| Convert.FillSlot | juce_backend/src/ffi/sch_instrument_ffi.cpp:161-176 | one pass of the loop converts element i into the block and never takes the rollback branch |
| Convert.FilledIsListed | juce_backend/src/ffi/sch_instrument_ffi.cpp:178-179 | a completely filled block is a listing of the catalogue |
| Convert.Materialise | juce_backend/src/ffi/sch_instrument_ffi.cpp:149-179 | a refused block gives OUT_OF_MEMORY, a NULL array, an untouched count and an unchanged heap; otherwise OK, count = catalogue length, element i converts catalogue entry i, and the array and its texts are the only new blocks |
| Memory.OwnedPrefixMember | juce_backend/src/ffi/sch_instrument_ffi.cpp:825-827 | a pointer is owned by elements 0..n-1 exactly when one of them holds it |
| Memory.OwnedPrefixDisjoint | juce_backend/src/ffi/sch_instrument_ffi.cpp:825-827 | with pairwise disjoint elements, a later element shares no block with an earlier prefix |
| Memory.OwnedPrefixGrows | juce_backend/src/ffi/sch_instrument_ffi.cpp:825-827 | a longer prefix owns every block a shorter one does |
| Memory.OwnedPrefixAgree | juce_backend/src/ffi/sch_instrument_ffi.cpp:161-165 | the blocks owned by a prefix depend only on the elements in it |
| Memory.OwnedPrefixLive | juce_backend/src/ffi/sch_instrument_ffi.cpp:161-165 | a prefix whose elements' texts are live has only live blocks |
| Memory.Heap.Malloc | juce_backend/src/ffi/sch_instrument_ffi.cpp:152-158 | NULL leaves the heap as it was; a non-NULL result is a block that was not live and is the only change |
| Memory.Heap.Free | juce_backend/src/ffi/sch_instrument_ffi.cpp:829 | freeing a live block removes exactly that block |
| Memory.Heap.StoreInfo | juce_backend/src/ffi/sch_instrument_ffi.cpp:81-91 | writing an array element changes that element of that block only |
| Release.FreeIfSet | juce_backend/src/ffi/sch_instrument_ffi.cpp:839-843 | a NULL field frees nothing; a set field frees exactly its block |
| Release.ReleaseFirst | juce_backend/src/ffi/sch_instrument_ffi.cpp:839-843 | freeing the first field of a releasable sequence leaves the rest releasable, and together they free exactly the sequence's non-null blocks |
| Release.FreeInfoFields | juce_backend/src/ffi/sch_instrument_ffi.cpp:839-843 | frees exactly the non-null text fields of the struct, each once |
| Release.FreeInstrumentInfo | juce_backend/src/ffi/sch_instrument_ffi.cpp:832-844 | a null pointer is a no-op; otherwise exactly the struct's non-null texts are freed |
| Release.FreeParameterInfo | juce_backend/src/ffi/sch_instrument_ffi.cpp:846-856 | a null pointer is a no-op; otherwise exactly the non-null address, name and unit are freed |
| Release.ReleaseRow | juce_backend/src/ffi/sch_instrument_ffi.cpp:825-827 | after elements 0..i-1 are freed, element i's texts are still live, and freeing them frees exactly the prefix 0..i |
| Release.FreeInstrumentArray | juce_backend/src/ffi/sch_instrument_ffi.cpp:817-830 | a null pointer is a no-op; otherwise exactly the texts of elements 0..count-1 and then the block are freed, so nothing reachable from the argument stays live |
| Release.FreePresetArray | juce_backend/src/ffi/sch_instrument_ffi.cpp:858-872 | a null pointer is a no-op; otherwise exactly the names and categories of elements 0..count-1 and then the block are freed |
| Release.Rollback | juce_backend/src/ffi/sch_instrument_ffi.cpp:167-175 | after a failure at element i, elements 0..i-1 and the block are freed, the output pointer is NULL, and nothing else changes |
| Release.ReleaseUndoesListing | juce_backend/src/ffi/sch_instrument_ffi.h:89 | releasing a listing with its count gives back exactly the heap from before the list call |
| Bridge.Bridge.State | juce_backend/src/ffi/sch_instrument_ffi.h:11 | a handle is Live exactly when it is in the live set, and Destroyed exactly when it was destroyed and is not live |
| Bridge.ObtainedAgain | juce_backend/src/ffi/sch_instrument_ffi.cpp:97-110 | a second use of the manager constructs nothing and keeps the manager of the first |
| Bridge.Bridge.GetManager | juce_backend/src/ffi/sch_instrument_ffi.cpp:97-110 | the first call constructs a fresh manager, counted once; later calls return the same one and construct nothing; it is never null |
| Bridge.Bridge.Discover | juce_backend/src/ffi/sch_instrument_ffi.cpp:143-184 | an existing manager is kept and a missing one constructed once; an exception gives INTERNAL with nothing else changed; otherwise the Materialise outcome for the manager's catalogue |
| Bridge.Bridge.GetAvailable | juce_backend/src/ffi/sch_instrument_ffi.cpp:131-185 | INVALID_ARG exactly for a null output, before the manager is created and with nothing written; otherwise the Discover outcome, with an existing manager kept and a missing one constructed once |
| Bridge.Bridge.GetByCategory | juce_backend/src/ffi/sch_instrument_ffi.cpp:187-240 | as GetAvailable, with a null category rejected too |
| Bridge.Bridge.Search | juce_backend/src/ffi/sch_instrument_ffi.cpp:273-325 | as GetAvailable, with a null query rejected too |
| Bridge.Bridge.GetInfo | juce_backend/src/ffi/sch_instrument_ffi.cpp:242-271 | INVALID_ARG exactly for a null argument, without touching the manager; otherwise an existing manager is kept and a missing one constructed once; INTERNAL on exception and NOT_FOUND for an unknown identifier, both leaving the output and the heap unchanged; otherwise OK with the output a conversion whose texts are the only new blocks |
| Bridge.Bridge.Load | juce_backend/src/ffi/sch_instrument_ffi.cpp:331-370 | INVALID_ARG exactly for a null argument, without touching the manager; otherwise an existing manager is kept and a missing one constructed once; INTERNAL on exception and NOT_FOUND when no instance is created, both leaving the output and the live set unchanged; otherwise OK with a fresh non-null handle that becomes Live |
| Bridge.Bridge.Destroy | juce_backend/src/ffi/sch_instrument_ffi.cpp:372-390 | INVALID_ARG exactly for null; a Live handle becomes Destroyed and the result is OK |
| Bridge.Bridge.IsAvailable | juce_backend/src/ffi/sch_instrument_ffi.cpp:392-416 | INVALID_ARG exactly for a null argument, without touching the manager; otherwise an existing manager is kept and a missing one constructed once; INTERNAL on exception with the output unwritten; otherwise OK with the manager's answer written |
| Stubs.GetParameterCount | juce_backend/src/ffi/sch_instrument_ffi.cpp:422-439 | INVALID_ARG exactly for a null handle or output, with nothing written; otherwise OK with count 0 |
| Stubs.GetParameterInfo | juce_backend/src/ffi/sch_instrument_ffi.cpp:441-458 | INVALID_ARG exactly for a null handle or output; otherwise NOT_IMPLEMENTED for any index |
| Stubs.GetParameterValue | juce_backend/src/ffi/sch_instrument_ffi.cpp:460-477 | INVALID_ARG exactly for a null handle, address or output; otherwise NOT_IMPLEMENTED |
| Stubs.SetParameter | juce_backend/src/ffi/sch_instrument_ffi.cpp:479-518 | INVALID_ARG exactly for a null handle or address; otherwise OK, with or without smoothing |
| Stubs.SendMidi | juce_backend/src/ffi/sch_instrument_ffi.cpp:524-659 | each MIDI call gives INVALID_ARG exactly for a null handle and otherwise OK; ENGINE_NULL never occurs |
| Stubs.GetPresets | juce_backend/src/ffi/sch_instrument_ffi.cpp:665-685 | INVALID_ARG exactly for a null argument, with nothing written; otherwise OK with NULL and 0 |
| Stubs.LoadPreset | juce_backend/src/ffi/sch_instrument_ffi.cpp:687-704 | INVALID_ARG exactly for a null handle or name; otherwise OK |
| Stubs.SavePreset | juce_backend/src/ffi/sch_instrument_ffi.cpp:706-724 | INVALID_ARG exactly for a null handle or name, whatever the category; otherwise OK |
| Stubs.Process | juce_backend/src/ffi/sch_instrument_ffi.cpp:730-749 | INVALID_ARG exactly for a null handle or buffer; otherwise OK |
| Stubs.GetAudio | juce_backend/src/ffi/sch_instrument_ffi.cpp:751-770 | INVALID_ARG exactly for a null handle, buffer or output, with nothing written; otherwise OK with 0 samples |
| Stubs.GetState | juce_backend/src/ffi/sch_instrument_ffi.cpp:776-793 | INVALID_ARG exactly for a null handle or output, with nothing written; otherwise OK with a NULL string |
| Stubs.SetState | juce_backend/src/ffi/sch_instrument_ffi.cpp:795-811 | INVALID_ARG exactly for a null handle or text; otherwise OK, never PARSE_FAILED |
| Stubs.PlaceholdersNeverFail | juce_backend/src/ffi/sch_instrument_ffi.cpp:441-811 | with every pointer set, the parameter readers give NOT_IMPLEMENTED and the other placeholders OK |
| Stubs.NullHandleRejected | juce_backend/src/ffi/sch_instrument_ffi.cpp:441-811 | every placeholder entry point that writes no output (parameter info and value, both setters, the five MIDI calls, load and save preset, process, set state) rejects a null handle whatever its other arguments; the writing ones (GetParameterCount, GetAudio, GetState) state it in their own contracts |
| Protocol.ReleaseUndoesInfo | juce_backend/src/ffi/sch_instrument_ffi.h:120 | a converted struct may be released, and releasing it gives back the heap from before the conversion |
| Protocol.ListAndRelease | juce_backend/src/ffi/sch_instrument_ffi.h:89 | listing and then always releasing what came back, from NULL, leaves the heap exactly as it was on every outcome |
| Protocol.InfoAndRelease | juce_backend/src/ffi/sch_instrument_ffi.h:120 | looking up one instrument and releasing a successful result leaves the heap exactly as it was |
| Protocol.LoadAndDestroy | juce_backend/src/ffi/sch_instrument_ffi.h:152-153 | loading and destroying leaves the live set as it was, and a created handle ends Destroyed |
| Protocol.ManagerBuiltOnce | juce_backend/src/ffi/sch_instrument_ffi.cpp:97-110 | from process start, a list call, a load and an availability query share one manager, constructed exactly once |
| Protocol.PresetsAndRelease | juce_backend/src/ffi/sch_instrument_ffi.h:353 | releasing the (always empty) preset list changes nothing |

## Left out

- Float and double values are not modelled: the parameter info's min, max and default, parameter values, ramp times and MIDI velocities and values. Audio sample contents and MIDI bytes are not modelled either. No entry point looks at them.
- The engine handle is not modelled. Every entry point ignores it, so the manager is the same for every engine.
- `DBG` logging is left out. JUCE `String` and UTF-8 encoding are left out too: text is given as its UTF-8 bytes.
- Exceptions that are not `std::exception` are left out. They are not caught, so the call does not return.
- Exceptions thrown while the manager is constructed, and by the conversions themselves, are left out. Only the manager calls may throw in this model.
- `std::call_once` and all concurrency and thread-safety claims are left out. Only the sequential first-call-constructs behaviour is modelled.
- `Convert.Materialise` is left out for `malloc` size overflow. The block size `sizeof(sch_instrument_info_t) * n` is taken as exact, and a refused request is modelled as nondeterministic for every n, including 0.
- `Bridge.Bridge.Destroy`: destroying a handle that is not Live is undefined behaviour, so it is a precondition. Use after destroy and double destroy are not modelled.
- The release helpers require releasable arguments. Freeing a pointer that is not live, or freeing the same block twice, is undefined behaviour.
- The manager's filtering for category and search, and its `createInstance`, are not modelled. Their answers are parameters.
- The instance a handle denotes is not modelled: `getInstrumentInstance` is the identity on non-null handles. The `reinterpret_cast` is not modelled either.
- `sch_free_string` is declared in the header but defined elsewhere. It is not part of this model.
- `hardware/schematics/generate_schematic_pdf.py` is not part of this model. It only renders a PDF.
