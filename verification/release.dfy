/**
 * The release helpers of the bridge (sch_free_instrument_array,
 * sch_free_instrument_info, sch_free_parameter_info,
 * sch_free_preset_array) and the rollback the list operations would run on
 * a failed element. Each frees every non-null text it is given exactly
 * once and, for arrays, the block last; a null argument changes nothing.
 */
module Release {
  import opened Abi
  import opened Memory
  import Convert

  /** Freeing the first pointer of a releasable sequence leaves the rest releasable. */
  lemma ReleaseFirst(m: Blocks, ps: seq<Ptr>)
    requires |ps| > 0 && Releasable(m, ps)
    ensures ps[0] != NULL ==> ps[0] in m
    ensures Releasable(m - NonNull([ps[0]]), ps[1..])
    ensures (m - NonNull([ps[0]])) - NonNull(ps[1..]) == m - NonNull(ps)
  {
    assert ps == [ps[0]] + ps[1..];
    assert NonNull(ps) == NonNull([ps[0]]) + NonNull(ps[1..]);
    forall q | q in NonNull(ps[1..])
      ensures q in m - NonNull([ps[0]])
    {
      var j :| 0 <= j < |ps[1..]| && ps[1..][j] == q;
      assert ps[j + 1] == q;
    }
  }

  /** `if (p) std::free(p);` */
  method FreeIfSet(heap: Heap, p: Ptr)
    requires heap.Valid()
    requires p != NULL ==> p in heap.blocks
    modifies heap
    ensures heap.Valid()
    ensures heap.blocks == old(heap.blocks) - NonNull([p])
  {
    if p != NULL {
      heap.Free(p);
      assert NonNull([p]) == {p};
    } else {
      assert NonNull([p]) == {};
    }
  }

  /**
   * The body of sch_free_instrument_info once its argument is known to be
   * non-null: frees each of the five texts that is set.
   */
  method FreeInfoFields(heap: Heap, t: InfoT)
    requires heap.Valid() && Releasable(heap.blocks, t.Texts())
    modifies heap
    ensures heap.Valid()
    ensures heap.blocks == old(heap.blocks) - NonNull(t.Texts())
  {
    ghost var ps := t.Texts();
    ReleaseFirst(heap.blocks, ps);
    FreeIfSet(heap, t.identifier);
    ReleaseFirst(heap.blocks, ps[1..]);
    FreeIfSet(heap, t.name);
    ReleaseFirst(heap.blocks, ps[2..]);
    assert ps[2..][1..] == ps[3..];
    FreeIfSet(heap, t.category);
    ReleaseFirst(heap.blocks, ps[3..]);
    assert ps[3..][1..] == ps[4..];
    FreeIfSet(heap, t.manufacturer);
    ReleaseFirst(heap.blocks, ps[4..]);
    assert ps[4..][1..] == [];
    FreeIfSet(heap, t.version);
    assert NonNull([]) == {};
  }

  /** sch_free_instrument_info: a null pointer is a no-op; otherwise the five texts are freed. */
  method FreeInstrumentInfo(heap: Heap, info: Cell?<InfoT>)
    requires heap.Valid()
    requires info != null ==> Releasable(heap.blocks, info.value.Texts())
    modifies heap
    ensures heap.Valid()
    ensures info == null ==> heap.blocks == old(heap.blocks)
    ensures info != null ==> heap.blocks == old(heap.blocks) - NonNull(info.value.Texts())
  {
    if info == null {
      return;
    }
    FreeInfoFields(heap, info.value);
  }

  /** sch_free_parameter_info: a null pointer is a no-op; otherwise address, name and unit are freed. */
  method FreeParameterInfo(heap: Heap, info: Cell?<ParamInfoT>)
    requires heap.Valid()
    requires info != null ==> Releasable(heap.blocks, info.value.Texts())
    modifies heap
    ensures heap.Valid()
    ensures info == null ==> heap.blocks == old(heap.blocks)
    ensures info != null ==> heap.blocks == old(heap.blocks) - NonNull(info.value.Texts())
  {
    if info == null {
      return;
    }
    var t := info.value;
    ghost var ps := t.Texts();
    ReleaseFirst(heap.blocks, ps);
    FreeIfSet(heap, t.address);
    ReleaseFirst(heap.blocks, ps[1..]);
    FreeIfSet(heap, t.name);
    ReleaseFirst(heap.blocks, ps[2..]);
    assert ps[2..][1..] == [];
    FreeIfSet(heap, t.unit);
    assert NonNull([]) == {};
  }

  /** Freeing row i of an array after rows 0..i-1 frees exactly the prefix of i + 1 rows. */
  lemma ReleaseRow(m0: Blocks, p: Ptr, n: nat, i: nat)
    requires ReleasableArray(m0, p, n) && i < n
    ensures p in m0 - OwnedPrefix(Rows(m0[p]), i)
    ensures Releasable(m0 - OwnedPrefix(Rows(m0[p]), i), Rows(m0[p])[i])
    ensures (m0 - OwnedPrefix(Rows(m0[p]), i)) - NonNull(Rows(m0[p])[i]) == m0 - OwnedPrefix(Rows(m0[p]), i + 1)
  {
    OwnedPrefixDisjoint(Rows(m0[p]), n, i, i);
    OwnedPrefixGrows(Rows(m0[p]), i, n);
  }

  /**
   * sch_free_instrument_array: a null pointer is a no-op; otherwise the
   * texts of elements 0..count-1 are freed, then the block. Afterwards no
   * allocation reachable from the argument is live.
   */
  method FreeInstrumentArray(heap: Heap, instruments: Ptr, count: nat)
    requires heap.Valid()
    requires instruments != NULL ==> && ReleasableArray(heap.blocks, instruments, count)
                                     && heap.blocks[instruments].InfoArray?
    modifies heap
    ensures heap.Valid()
    ensures instruments == NULL ==> heap.blocks == old(heap.blocks)
    ensures instruments != NULL ==>
      heap.blocks == old(heap.blocks) - ({instruments} + OwnedPrefix(Rows(old(heap.blocks)[instruments]), count))
  {
    if instruments == NULL {
      return;
    }
    ghost var m0 := heap.blocks;
    ghost var rows := Rows(m0[instruments]);
    var i := 0;
    while i < count
      invariant 0 <= i <= count
      invariant heap.Valid()
      invariant heap.blocks == m0 - OwnedPrefix(rows, i)
    {
      ReleaseRow(m0, instruments, count, i);
      FreeInfoFields(heap, heap.blocks[instruments].infos[i]);
      i := i + 1;
    }
    heap.Free(instruments);
  }

  /**
   * sch_free_preset_array: a null pointer is a no-op; otherwise name and
   * category of elements 0..count-1 are freed, then the block.
   */
  method FreePresetArray(heap: Heap, presets: Ptr, count: nat)
    requires heap.Valid()
    requires presets != NULL ==> && ReleasableArray(heap.blocks, presets, count)
                                 && heap.blocks[presets].PresetArray?
    modifies heap
    ensures heap.Valid()
    ensures presets == NULL ==> heap.blocks == old(heap.blocks)
    ensures presets != NULL ==>
      heap.blocks == old(heap.blocks) - ({presets} + OwnedPrefix(Rows(old(heap.blocks)[presets]), count))
  {
    if presets == NULL {
      return;
    }
    ghost var m0 := heap.blocks;
    ghost var rows := Rows(m0[presets]);
    var i := 0;
    while i < count
      invariant 0 <= i <= count
      invariant heap.Valid()
      invariant heap.blocks == m0 - OwnedPrefix(rows, i)
    {
      ReleaseRow(m0, presets, count, i);
      var entry := heap.blocks[presets].presets[i];
      ghost var ps := entry.Texts();
      ReleaseFirst(heap.blocks, ps);
      FreeIfSet(heap, entry.name);
      ReleaseFirst(heap.blocks, ps[1..]);
      assert ps[1..][1..] == [];
      FreeIfSet(heap, entry.category);
      assert NonNull([]) == {};
      i := i + 1;
    }
    heap.Free(presets);
  }

  /**
   * The cleanup a list operation runs when converting element i fails:
   * elements 0..i-1 and the block are freed and *out_instruments is reset
   * to NULL. The conversion into an array element never fails
   * (Convert.ConvertInfo), so the list operations never reach it.
   */
  method Rollback(heap: Heap, out: Cell<Ptr>, i: nat)
    requires heap.Valid() && out.value != NULL
    requires ReleasableArray(heap.blocks, out.value, i) && heap.blocks[out.value].InfoArray?
    modifies heap, out
    ensures heap.Valid()
    ensures out.value == NULL
    ensures heap.blocks == old(heap.blocks) - ({old(out.value)} + OwnedPrefix(Rows(old(heap.blocks)[old(out.value)]), i))
  {
    FreeInstrumentArray(heap, out.value, i);
    out.value := NULL;
  }

  /**
   * Releasing a listing with sch_free_instrument_array gives back exactly
   * the heap from before the list call: nothing leaks and nothing else is
   * freed.
   */
  lemma ReleaseUndoesListing(before: Blocks, after: Blocks, infos: seq<Convert.Engine.InstrumentInfo>, blk: Ptr)
    requires Convert.Listed(before, after, infos, blk)
    ensures after - ({blk} + OwnedPrefix(Rows(after[blk]), |infos|)) == before
  {
    var gone := {blk} + OwnedPrefix(Rows(after[blk]), |infos|);
    assert (after - gone).Keys == before.Keys;
  }
}
