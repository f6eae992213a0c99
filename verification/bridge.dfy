/**
 * The process-wide state behind the instrument bridge and the entry points
 * that use it: the lazily created InstrumentManager, the C heap, and the
 * instances handed out as sch_instrument_handle. Each entry point checks
 * its pointer arguments before anything else, consults the manager (whose
 * answer is a parameter), and translates a caught std::exception into
 * Internal. Input strings are borrowed values; None is a null `const char*`.
 */
module Bridge {
  import opened Abi
  import opened Memory
  import Engine
  import Convert

  /** Where a handle is in its life: never handed out, owned by a caller, or deleted. */
  datatype HandleState = Unborn | Live | Destroyed

  /**
   * The outcome of a list operation once its arguments passed the null
   * checks: a thrown exception changes nothing; otherwise either malloc
   * refused the block (NULL published, count untouched, heap as before)
   * or the listing is complete and its count published.
   */
  ghost predicate Discovered(reply: Engine.Reply<seq<Engine.InstrumentInfo>>, r: Status,
                             before: Blocks, after: Blocks, out0: Ptr, out1: Ptr, count0: nat, count1: nat)
  {
    match reply
    case Threw => r == Internal && after == before && out1 == out0 && count1 == count0
    case Returned(infos) =>
      || (r == OutOfMemory && out1 == NULL && count1 == count0 && after == before)
      || (r == Ok && count1 == |infos| && Convert.Listed(before, after, infos, out1))
  }

  /**
   * getInstrumentManager's once-init, from manager m0 after c0
   * constructions to m1 after c1: an existing manager is kept and nothing
   * is constructed; a missing one is constructed, once.
   */
  ghost predicate Obtained(m0: Engine.Manager?, c0: nat, m1: Engine.Manager?, c1: nat)
  {
    && m1 != null
    && (m0 != null ==> m1 == m0 && c1 == c0)
    && (m0 == null ==> c1 == c0 + 1)
  }

  /** A second use of the manager constructs nothing and keeps the manager of the first. */
  lemma ObtainedAgain(m0: Engine.Manager?, c0: nat, m1: Engine.Manager?, c1: nat, m2: Engine.Manager?, c2: nat)
    requires Obtained(m0, c0, m1, c1) && Obtained(m1, c1, m2, c2)
    ensures Obtained(m0, c0, m2, c2) && m2 == m1 && c2 == c1
  {
  }

  class Bridge {
    /** The C heap the bridge allocates caller-owned results from. */
    const heap: Heap
    /** The static globalManager of getInstrumentManager; null until first use. */
    var manager: Engine.Manager?
    /** How many managers have been constructed. */
    ghost var constructions: nat
    /** Instances handed to callers and not yet destroyed. */
    ghost var live: set<Engine.Instance>
    /** Instances a caller has destroyed. */
    ghost var destroyed: set<Engine.Instance>

    ghost predicate Valid()
      reads this, heap
    {
      && heap.Valid()
      && live !! destroyed
      && (manager == null ==> constructions == 0)
    }

    /** The life state of a handle. */
    ghost function State(h: Engine.Instance): (s: HandleState)
      reads this
      ensures s == Live <==> h in live
      ensures s == Destroyed <==> h in destroyed && h !in live
    {
      if h in live then Live else if h in destroyed then Destroyed else Unborn
    }

    /** Process start: no manager yet, no handles. */
    constructor (heap: Heap)
      requires heap.Valid()
      ensures Valid() && this.heap == heap
      ensures manager == null && constructions == 0 && live == {} && destroyed == {}
    {
      this.heap := heap;
      manager := null;
      constructions := 0;
      live := {};
      destroyed := {};
    }

    /**
     * getInstrumentManager: the first call constructs the manager, every
     * later call returns the same one; it is never null and never
     * constructed twice. The engine argument is ignored.
     */
    method GetManager() returns (m: Engine.Manager)
      requires Valid()
      modifies this
      ensures Valid()
      ensures manager == m
      ensures Obtained(old(manager), old(constructions), manager, constructions)
      ensures old(manager) == null ==> fresh(m)
      ensures live == old(live) && destroyed == old(destroyed)
    {
      if manager == null {
        manager := new Engine.Manager();
        constructions := constructions + 1;
      }
      m := manager;
    }

    /**
     * The part shared by the three list operations after their null
     * checks: get the manager, ask it for the descriptors, and materialise
     * them. The manager's null check never fires because GetManager never
     * yields null.
     */
    method Discover(reply: Engine.Reply<seq<Engine.InstrumentInfo>>, out: Cell<Ptr>, count: Cell<nat>)
      returns (r: Status)
      requires Valid()
      modifies this, heap, out, count
      ensures Valid()
      ensures Obtained(old(manager), old(constructions), manager, constructions)
      ensures live == old(live) && destroyed == old(destroyed)
      ensures Discovered(reply, r, old(heap.blocks), heap.blocks, old(out.value), out.value, old(count.value), count.value)
    {
      var m := GetManager();
      match reply
      case Threw =>
        r := Internal;
      case Returned(infos) =>
        r := Convert.Materialise(heap, infos, out, count);
    }

    /**
     * sch_instrument_get_available: a null out_instruments or out_count is
     * rejected before the manager is touched; otherwise the outcome is a
     * listing of the manager's descriptors (see Discovered).
     */
    method GetAvailable(out: Cell?<Ptr>, count: Cell?<nat>, reply: Engine.Reply<seq<Engine.InstrumentInfo>>)
      returns (r: Status)
      requires Valid()
      modifies this, heap, out, count
      ensures Valid()
      ensures live == old(live) && destroyed == old(destroyed)
      ensures r == InvalidArg <==> out == null || count == null
      ensures r == InvalidArg ==> && manager == old(manager) && constructions == old(constructions)
                                  && heap.blocks == old(heap.blocks)
                                  && (out != null ==> out.value == old(out.value))
                                  && (count != null ==> count.value == old(count.value))
      ensures r != InvalidArg ==> && out != null && count != null
                                  && Obtained(old(manager), old(constructions), manager, constructions)
                                  && Discovered(reply, r, old(heap.blocks), heap.blocks,
                                                old(out.value), out.value, old(count.value), count.value)
    {
      if out == null || count == null {
        return InvalidArg;
      }
      r := Discover(reply, out, count);
    }

    /**
     * sch_instrument_get_by_category: as GetAvailable, with a null
     * category rejected too. Which descriptors the manager picks for the
     * category is its own business: reply is its answer.
     */
    method GetByCategory(category: Option<seq<Byte>>, out: Cell?<Ptr>, count: Cell?<nat>,
                         reply: Engine.Reply<seq<Engine.InstrumentInfo>>)
      returns (r: Status)
      requires Valid()
      modifies this, heap, out, count
      ensures Valid()
      ensures live == old(live) && destroyed == old(destroyed)
      ensures r == InvalidArg <==> category.None? || out == null || count == null
      ensures r == InvalidArg ==> && manager == old(manager) && constructions == old(constructions)
                                  && heap.blocks == old(heap.blocks)
                                  && (out != null ==> out.value == old(out.value))
                                  && (count != null ==> count.value == old(count.value))
      ensures r != InvalidArg ==> && out != null && count != null
                                  && Obtained(old(manager), old(constructions), manager, constructions)
                                  && Discovered(reply, r, old(heap.blocks), heap.blocks,
                                                old(out.value), out.value, old(count.value), count.value)
    {
      if category.None? || out == null || count == null {
        return InvalidArg;
      }
      r := Discover(reply, out, count);
    }

    /**
     * sch_instrument_search: as GetAvailable, with a null query rejected
     * too; reply is the manager's answer to the query.
     */
    method Search(query: Option<seq<Byte>>, out: Cell?<Ptr>, count: Cell?<nat>,
                  reply: Engine.Reply<seq<Engine.InstrumentInfo>>)
      returns (r: Status)
      requires Valid()
      modifies this, heap, out, count
      ensures Valid()
      ensures live == old(live) && destroyed == old(destroyed)
      ensures r == InvalidArg <==> query.None? || out == null || count == null
      ensures r == InvalidArg ==> && manager == old(manager) && constructions == old(constructions)
                                  && heap.blocks == old(heap.blocks)
                                  && (out != null ==> out.value == old(out.value))
                                  && (count != null ==> count.value == old(count.value))
      ensures r != InvalidArg ==> && out != null && count != null
                                  && Obtained(old(manager), old(constructions), manager, constructions)
                                  && Discovered(reply, r, old(heap.blocks), heap.blocks,
                                                old(out.value), out.value, old(count.value), count.value)
    {
      if query.None? || out == null || count == null {
        return InvalidArg;
      }
      r := Discover(reply, out, count);
    }

    /**
     * sch_instrument_get_info: null arguments are rejected first; an
     * exception gives Internal and an unknown identifier NotFound, both
     * with *out_info unwritten; a known one is converted into *out_info,
     * whose texts are fresh caller-owned blocks.
     */
    method GetInfo(identifier: Option<seq<Byte>>, outInfo: Cell?<InfoT>,
                   reply: Engine.Reply<Option<Engine.InstrumentInfo>>)
      returns (r: Status)
      requires Valid()
      modifies this, heap, outInfo
      ensures Valid()
      ensures live == old(live) && destroyed == old(destroyed)
      ensures r == InvalidArg <==> identifier.None? || outInfo == null
      ensures r == InvalidArg ==> manager == old(manager) && constructions == old(constructions)
      ensures r != InvalidArg ==> Obtained(old(manager), old(constructions), manager, constructions)
      ensures r == Internal <==> r != InvalidArg && reply.Threw?
      ensures r == NotFound <==> r != InvalidArg && reply == Engine.Returned(None)
      ensures r == Ok <==> r != InvalidArg && reply.Returned? && reply.value.Some?
      ensures r != Ok ==> heap.blocks == old(heap.blocks) && (outInfo != null ==> outInfo.value == old(outInfo.value))
      ensures r == Ok ==> && Convert.Describes(heap.blocks, reply.value.value, outInfo.value)
                          && Convert.GrewBy(old(heap.blocks), heap.blocks, outInfo.value.Texts())
    {
      if identifier.None? || outInfo == null {
        return InvalidArg;
      }
      var m := GetManager();
      match reply
      case Threw =>
        r := Internal;
      case Returned(None) =>
        r := NotFound;
      case Returned(Some(info)) =>
        var t;
        r, t := Convert.ConvertInfo(heap, info, Convert.Caller(outInfo));
    }

    /**
     * sch_instrument_load: null identifier or out_instrument is rejected
     * first; an exception gives Internal and an instance the manager could
     * not create NotFound, both with *out_instrument unwritten; otherwise
     * a new instance, which the bridge keeps no reference to, becomes Live
     * and is handed to the caller. A non-empty preset_json is ignored.
     */
    method Load(identifier: Option<seq<Byte>>, presetJson: Option<seq<Byte>>, out: Cell?<Engine.Instance?>,
                created: Engine.Reply<bool>)
      returns (r: Status)
      requires Valid()
      modifies this, out
      ensures Valid()
      ensures r == InvalidArg <==> identifier.None? || out == null
      ensures r == InvalidArg ==> manager == old(manager) && constructions == old(constructions)
      ensures r != InvalidArg ==> Obtained(old(manager), old(constructions), manager, constructions)
      ensures r == Internal <==> r != InvalidArg && created.Threw?
      ensures r == NotFound <==> r != InvalidArg && created == Engine.Returned(false)
      ensures r == Ok <==> r != InvalidArg && created == Engine.Returned(true)
      ensures r != Ok ==> && live == old(live) && destroyed == old(destroyed)
                          && (out != null ==> out.value == old(out.value))
      ensures r == Ok ==> && out.value != null && fresh(out.value)
                          && live == old(live) + {out.value} && destroyed == old(destroyed)
                          && State(out.value) == Live
    {
      if identifier.None? || out == null {
        return InvalidArg;
      }
      var m := GetManager();
      match created
      case Threw =>
        r := Internal;
      case Returned(false) =>
        r := NotFound;
      case Returned(true) =>
        var instance := new Engine.Instance();
        live := live + {instance};
        out.value := instance;
        r := Ok;
    }

    /**
     * sch_instrument_destroy: null is rejected; a Live handle is deleted
     * and becomes Destroyed. Destroying a handle that is not Live is
     * undefined behaviour in the source, so it is excluded.
     */
    method Destroy(h: Engine.Instance?) returns (r: Status)
      requires Valid()
      requires h != null ==> State(h) == Live
      modifies this
      ensures Valid()
      ensures manager == old(manager) && constructions == old(constructions)
      ensures r == InvalidArg <==> h == null
      ensures h == null ==> live == old(live) && destroyed == old(destroyed)
      ensures h != null ==> && r == Ok && State(h) == Destroyed
                            && live == old(live) - {h} && destroyed == old(destroyed) + {h}
    {
      if h == null {
        return InvalidArg;
      }
      live := live - {h};
      destroyed := destroyed + {h};
      r := Ok;
    }

    /**
     * sch_instrument_is_available: null arguments are rejected first; an
     * exception gives Internal with *out_available unwritten; otherwise
     * the manager's answer is written and the result is Ok.
     */
    method IsAvailable(identifier: Option<seq<Byte>>, out: Cell?<bool>, answer: Engine.Reply<bool>)
      returns (r: Status)
      requires Valid()
      modifies this, out
      ensures Valid()
      ensures live == old(live) && destroyed == old(destroyed)
      ensures r == InvalidArg <==> identifier.None? || out == null
      ensures r == InvalidArg ==> manager == old(manager) && constructions == old(constructions)
      ensures r != InvalidArg ==> Obtained(old(manager), old(constructions), manager, constructions)
      ensures r == Internal <==> r != InvalidArg && answer.Threw?
      ensures r == Ok <==> r != InvalidArg && answer.Returned?
      ensures r == Ok ==> out.value == answer.value
      ensures r != Ok && out != null ==> out.value == old(out.value)
    {
      if identifier.None? || out == null {
        return InvalidArg;
      }
      var m := GetManager();
      match answer
      case Threw =>
        r := Internal;
      case Returned(available) =>
        out.value := available;
        r := Ok;
    }
  }
}
