/**
 * The ownership protocol of the bridge as a caller follows it: every
 * array or struct the bridge fills is released with the matching helper,
 * every handle is destroyed. Following it gives back the heap and the set
 * of live handles exactly as they were.
 */
module Protocol {
  import opened Abi
  import opened Memory
  import Engine
  import Convert
  import Release
  import Stubs
  import Bridge

  /** Releasing the texts of one conversion gives back the heap from before it. */
  lemma ReleaseUndoesInfo(before: Blocks, after: Blocks, t: InfoT)
    requires Convert.GrewBy(before, after, t.Texts())
    ensures Releasable(after, t.Texts())
    ensures after - NonNull(t.Texts()) == before
  {
    assert (after - NonNull(t.Texts())).Keys == before.Keys;
  }

  /**
   * A caller that starts from NULL, lists the instruments and then always
   * calls sch_free_instrument_array with what it got back: whatever the
   * outcome (listing, refused block, exception), the heap ends as it was.
   */
  method ListAndRelease(b: Bridge.Bridge, reply: Engine.Reply<seq<Engine.InstrumentInfo>>) returns (r: Status)
    requires b.Valid()
    modifies b, b.heap
    ensures b.Valid()
    ensures r == Ok || r == OutOfMemory || r == Internal
    ensures b.heap.blocks == old(b.heap.blocks)
  {
    ghost var before := b.heap.blocks;
    var out := new Cell<Ptr>(NULL);
    var count := new Cell<nat>(0);
    r := b.GetAvailable(out, count, reply);
    if r == Ok {
      Release.ReleaseUndoesListing(before, b.heap.blocks, reply.value, out.value);
    }
    Release.FreeInstrumentArray(b.heap, out.value, count.value);
  }

  /**
   * A caller that looks one instrument up and releases the struct with
   * sch_free_instrument_info when the lookup succeeded: the heap ends as
   * it was.
   */
  method InfoAndRelease(b: Bridge.Bridge, identifier: seq<Byte>, reply: Engine.Reply<Option<Engine.InstrumentInfo>>)
    returns (r: Status)
    requires b.Valid()
    modifies b, b.heap
    ensures b.Valid()
    ensures r != InvalidArg
    ensures b.heap.blocks == old(b.heap.blocks)
  {
    ghost var before := b.heap.blocks;
    var info := new Cell<InfoT>(Convert.Unwritten);
    r := b.GetInfo(Some(identifier), info, reply);
    if r == Ok {
      ReleaseUndoesInfo(before, b.heap.blocks, info.value);
      Release.FreeInstrumentInfo(b.heap, info);
    }
  }

  /**
   * A caller that loads an instrument and destroys the handle it got: the
   * handle goes Unborn, Live, Destroyed, and the set of live handles ends
   * as it was.
   */
  method LoadAndDestroy(b: Bridge.Bridge, identifier: seq<Byte>, created: Engine.Reply<bool>)
    returns (r: Status, h: Engine.Instance?)
    requires b.Valid()
    modifies b
    ensures b.Valid()
    ensures b.live == old(b.live)
    ensures r == Ok <==> created == Engine.Returned(true)
    ensures r == Ok ==> && h != null && fresh(h) && b.State(h) == Bridge.Destroyed
                        && b.destroyed == old(b.destroyed) + {h}
    ensures r != Ok ==> b.destroyed == old(b.destroyed)
  {
    var handle := new Cell<Engine.Instance?>(null);
    r := b.Load(Some(identifier), None, handle, created);
    h := handle.value;
    if r == Ok {
      var d := b.Destroy(h);
    }
  }

  /**
   * The preset list is always empty, so releasing it with
   * sch_free_preset_array changes nothing.
   */
  method PresetsAndRelease(heap: Heap, identifier: seq<Byte>) returns (r: Status)
    requires heap.Valid()
    modifies heap
    ensures r == Ok
    ensures heap.Valid() && heap.blocks == old(heap.blocks)
  {
    var presets := new Cell<Ptr>(NULL);
    var count := new Cell<nat>(0);
    r := Stubs.GetPresets(Some(identifier), presets, count);
    Release.FreePresetArray(heap, presets.value, count.value);
  }

  /**
   * From process start, a list call, a load and an availability query all
   * use one manager, constructed by the first of them and never again.
   */
  method ManagerBuiltOnce(heap: Heap, listing: Engine.Reply<seq<Engine.InstrumentInfo>>,
                          created: Engine.Reply<bool>, available: Engine.Reply<bool>)
    returns (b: Bridge.Bridge)
    requires heap.Valid()
    modifies heap
    ensures b.Valid() && b.manager != null && b.constructions == 1
  {
    b := new Bridge.Bridge(heap);
    var out := new Cell<Ptr>(NULL);
    var count := new Cell<nat>(0);
    var r1 := b.GetAvailable(out, count, listing);
    ghost var first := b.manager;
    var handle := new Cell<Engine.Instance?>(null);
    var r2 := b.Load(Some([]), None, handle, created);
    var flag := new Cell<bool>(false);
    var r3 := b.IsAvailable(Some([]), flag, available);
    assert b.manager == first;
  }
}
