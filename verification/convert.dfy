/**
 * Descriptor conversion: manager-side strings, types and instrument
 * descriptors become caller-owned C values, one at a time or as a whole
 * array (sch_instrument_ffi.cpp, juceStringToAllocatedCString,
 * convertInstrumentType, convertInstrumentInfo and the shared body of the
 * three list operations).
 */
module Convert {
  import opened Abi
  import opened Memory
  import Engine

  /** The manager-side type that a C enum value stands for. */
  function Embed(k: InstrumentKind): Engine.InstrumentType
  {
    match k
    case BuiltinSynth => Engine.InstrumentType.BuiltInSynthesizer
    case ExternalPlugin => Engine.InstrumentType.ExternalPlugin
    case AudioUnit => Engine.InstrumentType.AudioUnit
  }

  /**
   * convertInstrumentType: total; every variant the switch names keeps its
   * meaning, and every other variant falls back to the built-in synth.
   */
  function ConvertType(t: Engine.InstrumentType): (k: InstrumentKind)
    ensures !t.Unlisted? ==> Embed(k) == t
    ensures t.Unlisted? ==> k == BuiltinSynth
  {
    match t
    case BuiltInSynthesizer => BuiltinSynth
    case ExternalPlugin => ExternalPlugin
    case AudioUnit => AudioUnit
    case Unlisted(_) => BuiltinSynth
  }

  /** Converting back and forth loses nothing for the three C kinds. */
  lemma ConvertTypeInvertsEmbed(k: InstrumentKind)
    ensures ConvertType(Embed(k)) == k
  {
  }

  /**
   * p is what converting the text s may leave behind: NULL for empty text;
   * otherwise NULL (the allocation was refused) or a live block holding the
   * bytes of s and the terminating NUL.
   */
  ghost predicate HoldsText(m: Blocks, s: seq<Byte>, p: Ptr)
  {
    && (s == [] ==> p == NULL)
    && (p != NULL ==> p in m && m[p] == Text(s + [0]))
  }

  /** t is a conversion of info: texts by HoldsText, the type by ConvertType, the rest copied. */
  ghost predicate Describes(m: Blocks, info: Engine.InstrumentInfo, t: InfoT)
  {
    && HoldsText(m, info.identifier, t.identifier)
    && HoldsText(m, info.name, t.name)
    && HoldsText(m, info.category, t.category)
    && HoldsText(m, info.manufacturer, t.manufacturer)
    && HoldsText(m, info.version, t.version)
    && t.kind == ConvertType(info.kind)
    && t.isInstrument == info.isInstrument
    && t.supportsMidi == info.supportsMidi
    && t.maxVoices == info.maxVoices
    && t.numInputs == info.numInputs
    && t.numOutputs == info.numOutputs
  }

  /** A conversion stays a conversion while the text blocks it points to are left alone. */
  lemma DescribesStable(m0: Blocks, m1: Blocks, info: Engine.InstrumentInfo, t: InfoT, touched: Ptr)
    requires touched in m0 && !m0[touched].Text?
    requires forall q :: q in m0 && q != touched ==> q in m1 && m1[q] == m0[q]
    requires Describes(m0, info, t)
    ensures Describes(m1, info, t)
  {
  }

  /** Every block live in m is live in m' with the same content. */
  ghost predicate Extends(m: Blocks, m': Blocks)
  {
    forall q :: q in m ==> q in m' && m'[q] == m[q]
  }

  /** Converted text stays converted while the heap only grows. */
  lemma HoldsTextPersists(m: Blocks, m': Blocks, s: seq<Byte>, p: Ptr)
    requires Extends(m, m') && HoldsText(m, s, p)
    ensures HoldsText(m', s, p)
  {
  }

  /** m grew from m0 by exactly the distinct, fresh, non-null pointers of ps. */
  ghost predicate GrewBy(m0: Blocks, m: Blocks, ps: seq<Ptr>)
  {
    && Extends(m0, m)
    && DistinctNonNull(ps)
    && NonNull(ps) !! m0.Keys
    && m.Keys == m0.Keys + NonNull(ps)
  }

  /** m' is m after one text conversion that left p: nothing for NULL, else one fresh block at p. */
  ghost predicate TextStep(m: Blocks, m': Blocks, p: Ptr)
  {
    && (p == NULL ==> m' == m)
    && (p != NULL ==> p !in m && p in m' && m' == m[p := m'[p]])
  }

  /** One more text conversion keeps the growth exact and the pointers distinct. */
  lemma AddedText(m0: Blocks, m: Blocks, m': Blocks, ps: seq<Ptr>, p: Ptr)
    requires GrewBy(m0, m, ps) && TextStep(m, m', p)
    ensures GrewBy(m0, m', ps + [p]) && Extends(m, m')
  {
    var qs := ps + [p];
    assert NonNull(qs) == NonNull(ps) + NonNull([p]);
    forall i, j | 0 <= i < j < |qs| && qs[i] != NULL
      ensures qs[i] != qs[j]
    {
      if j == |ps| {
        assert qs[i] in NonNull(ps) && NonNull(ps) <= m.Keys;
      }
    }
  }

  /** Growth composes. */
  lemma ExtendsTrans(a: Blocks, b: Blocks, c: Blocks)
    requires Extends(a, b) && Extends(b, c)
    ensures Extends(a, c)
  {
  }

  /**
   * juceStringToAllocatedCString: empty text becomes NULL with no
   * allocation; other text becomes a fresh block holding its bytes and a
   * NUL, or NULL, with no error reported, when malloc refuses.
   */
  method ToCString(heap: Heap, s: seq<Byte>) returns (p: Ptr)
    requires heap.Valid()
    modifies heap
    ensures heap.Valid()
    ensures HoldsText(heap.blocks, s, p)
    ensures p == NULL ==> heap.blocks == old(heap.blocks)
    ensures p != NULL ==> p !in old(heap.blocks) && heap.blocks == old(heap.blocks)[p := Text(s + [0])]
  {
    if s == [] {
      return NULL;
    }
    p := heap.Malloc(Text(s + [0]));
  }

  /** Where convertInstrumentInfo writes: a null pointer, a caller's struct, or an element of an array block. */
  datatype Dest = NullDest | Caller(cell: Cell<InfoT>) | Slot(block: Ptr, index: nat)

  /**
   * The field writes of convertInstrumentInfo: five text conversions, the
   * type conversion and the copied flags and counts. The text blocks are
   * fresh and distinct, and nothing that was live changes.
   */
  method ConvertFields(heap: Heap, info: Engine.InstrumentInfo) returns (t: InfoT)
    requires heap.Valid()
    modifies heap
    ensures heap.Valid()
    ensures Describes(heap.blocks, info, t)
    ensures GrewBy(old(heap.blocks), heap.blocks, t.Texts())
  {
    ghost var m0 := heap.blocks;
    assert GrewBy(m0, m0, []) by {
      assert NonNull([]) == {};
    }
    var identifier := AppendText(heap, info.identifier, m0, []);
    ghost var m1, ps1 := heap.blocks, [] + [identifier];
    var name := AppendText(heap, info.name, m0, ps1);
    ghost var m2, ps2 := heap.blocks, ps1 + [name];
    var category := AppendText(heap, info.category, m0, ps2);
    ghost var m3, ps3 := heap.blocks, ps2 + [category];
    var manufacturer := AppendText(heap, info.manufacturer, m0, ps3);
    ghost var m4, ps4 := heap.blocks, ps3 + [manufacturer];
    var version := AppendText(heap, info.version, m0, ps4);
    t := InfoT(identifier, name, category, manufacturer, version, ConvertType(info.kind),
               info.isInstrument, info.supportsMidi, info.maxVoices, info.numInputs, info.numOutputs);
    TextsInOrder(identifier, name, category, manufacturer, version);
    ExtendsTrans(m3, m4, heap.blocks);
    HoldsTextPersists(m3, heap.blocks, info.category, category);
    ExtendsTrans(m2, m3, heap.blocks);
    HoldsTextPersists(m2, heap.blocks, info.name, name);
    ExtendsTrans(m1, m2, heap.blocks);
    HoldsTextPersists(m1, heap.blocks, info.identifier, identifier);
    HoldsTextPersists(m4, heap.blocks, info.manufacturer, manufacturer);
  }

  /** The pointers as the five conversions leave them are the struct's text fields. */
  lemma TextsInOrder(a: Ptr, b: Ptr, c: Ptr, d: Ptr, e: Ptr)
    ensures [] + [a] + [b] + [c] + [d] + [e] == [a, b, c, d, e]
  {
  }

  /**
   * One text conversion inside convertInstrumentInfo: the pointers left so
   * far, ps, grow by the new one and stay fresh and distinct.
   */
  method AppendText(heap: Heap, s: seq<Byte>, ghost m0: Blocks, ghost ps: seq<Ptr>) returns (p: Ptr)
    requires heap.Valid() && GrewBy(m0, heap.blocks, ps)
    modifies heap
    ensures heap.Valid()
    ensures HoldsText(heap.blocks, s, p)
    ensures GrewBy(m0, heap.blocks, ps + [p])
    ensures Extends(old(heap.blocks), heap.blocks)
  {
    ghost var m := heap.blocks;
    p := ToCString(heap, s);
    AddedText(m0, m, heap.blocks, ps, p);
  }

  /**
   * convertInstrumentInfo: a null destination is rejected with nothing
   * written; any other destination receives a conversion of info, whose
   * text blocks are fresh and distinct, and the result is always Ok.
   */
  method ConvertInfo(heap: Heap, info: Engine.InstrumentInfo, dest: Dest) returns (r: Status, t: InfoT)
    requires heap.Valid()
    requires dest.Slot? ==> && dest.block in heap.blocks && heap.blocks[dest.block].InfoArray?
                            && dest.index < |heap.blocks[dest.block].infos|
    modifies heap, if dest.Caller? then {dest.cell} else {}
    ensures heap.Valid()
    ensures r == InvalidArg <==> dest.NullDest?
    ensures dest.NullDest? ==> heap.blocks == old(heap.blocks)
    ensures !dest.NullDest? ==> && r == Ok
                                && Describes(heap.blocks, info, t)
                                && DistinctNonNull(t.Texts())
                                && NonNull(t.Texts()) !! old(heap.blocks).Keys
                                && heap.blocks.Keys == old(heap.blocks).Keys + NonNull(t.Texts())
    ensures dest.Caller? ==> dest.cell.value == t
    ensures dest.Slot? ==> heap.blocks[dest.block] == InfoArray(old(heap.blocks)[dest.block].infos[dest.index := t])
    ensures forall q :: q in old(heap.blocks) && !(dest.Slot? && q == dest.block) ==> heap.blocks[q] == old(heap.blocks)[q]
  {
    if dest.NullDest? {
      r := InvalidArg;
      t := Unwritten;
      return;
    }
    t := ConvertFields(heap, info);
    r := Ok;
    match dest
    case Caller(cell) =>
      cell.value := t;
    case Slot(block, index) =>
      ghost var m := heap.blocks;
      heap.StoreInfo(block, index, t);
      DescribesStable(m, heap.blocks, info, t, block);
  }

  /** What a freshly malloc'd array element holds until it is written; never read. */
  const Unwritten: InfoT := InfoT(NULL, NULL, NULL, NULL, NULL, BuiltinSynth, false, false, 0, 0, 0)

  /**
   * The outcome of a successful list operation: blk is a fresh array block
   * of exactly |infos| elements, element i converts infos[i], every text it
   * owns is fresh and owned by one element only, and nothing that was live
   * before has changed.
   */
  ghost predicate Listed(before: Blocks, after: Blocks, infos: seq<Engine.InstrumentInfo>, blk: Ptr)
  {
    && blk != NULL && blk !in before && blk in after
    && after[blk].InfoArray? && |after[blk].infos| == |infos|
    && (forall i :: 0 <= i < |infos| ==> Describes(after, infos[i], after[blk].infos[i]))
    && ReleasableArray(after, blk, |infos|)
    && OwnedPrefix(Rows(after[blk]), |infos|) !! before.Keys
    && after.Keys == before.Keys + {blk} + OwnedPrefix(Rows(after[blk]), |infos|)
    && (forall q :: q in before ==> after[q] == before[q])
  }

  /** The first i elements of the array block blk convert the first i descriptors. */
  ghost predicate Converted(m: Blocks, infos: seq<Engine.InstrumentInfo>, blk: Ptr, i: nat)
  {
    && blk in m && m[blk].InfoArray? && i <= |m[blk].infos| && i <= |infos|
    && forall k :: 0 <= k < i ==> Describes(m, infos[k], m[blk].infos[k])
  }

  /**
   * The texts of the first i elements of blk are owned by one element
   * each, are fresh with respect to before, and are, with blk, all that
   * was added to it.
   */
  ghost predicate Owning(before: Blocks, m: Blocks, blk: Ptr, i: nat)
  {
    && blk in m && i <= |Rows(m[blk])|
    && RowsReleasable(m, Rows(m[blk]), i)
    && blk !in OwnedPrefix(Rows(m[blk]), i)
    && OwnedPrefix(Rows(m[blk]), i) !! before.Keys
    && m.Keys == before.Keys + {blk} + OwnedPrefix(Rows(m[blk]), i)
  }

  /**
   * The loop invariant of Materialise: blk is a fresh array of |infos|
   * elements whose first i elements convert infos and own distinct fresh
   * text blocks; nothing live before has changed.
   */
  ghost predicate Filling(before: Blocks, m: Blocks, infos: seq<Engine.InstrumentInfo>, blk: Ptr, i: nat)
  {
    && i <= |infos|
    && blk != NULL && blk !in before && blk in m
    && m[blk].InfoArray? && |m[blk].infos| == |infos|
    && Converted(m, infos, blk, i)
    && Owning(before, m, blk, i)
    && (forall q :: q in before ==> m[q] == before[q])
  }

  /** Writing a conversion into element i, and leaving the other texts alone, converts one more element. */
  lemma ConvertedStep(m0: Blocks, m1: Blocks, infos: seq<Engine.InstrumentInfo>, blk: Ptr, i: nat, t: InfoT)
    requires Converted(m0, infos, blk, i) && i < |m0[blk].infos| && i < |infos|
    requires Describes(m1, infos[i], t)
    requires blk in m1 && m1[blk] == InfoArray(m0[blk].infos[i := t])
    requires forall q :: q in m0 && q != blk ==> q in m1 && m1[q] == m0[q]
    ensures Converted(m1, infos, blk, i + 1)
  {
    forall k | 0 <= k < i
      ensures Describes(m1, infos[k], m1[blk].infos[k])
    {
      DescribesStable(m0, m1, infos[k], m0[blk].infos[k], blk);
    }
  }

  /** Adding the fresh, distinct texts of element i extends the ownership to i + 1 elements. */
  lemma OwningStep(before: Blocks, m0: Blocks, m1: Blocks, blk: Ptr, i: nat, t: InfoT)
    requires Owning(before, m0, blk, i) && blk !in before
    requires m0[blk].InfoArray? && i < |m0[blk].infos|
    requires DistinctNonNull(t.Texts())
    requires NonNull(t.Texts()) !! m0.Keys && m1.Keys == m0.Keys + NonNull(t.Texts())
    requires m1[blk] == InfoArray(m0[blk].infos[i := t])
    ensures Owning(before, m1, blk, i + 1)
  {
    var rows0, rows1 := Rows(m0[blk]), Rows(m1[blk]);
    assert rows1 == rows0[i := t.Texts()];
    OwnedPrefixAgree(rows0, rows1, i);
    OwnedPrefixLive(m0, rows0, i);
    forall k | 0 <= k < i
      ensures NonNull(rows1[k]) !! NonNull(rows1[i])
    {
      assert NonNull(rows0[k]) <= m0.Keys;
    }
  }

  /**
   * One pass of the conversion loop: element i of blk receives a
   * conversion of infos[i]. The element's address is never null, so the
   * conversion cannot fail and the rollback branch of the source never
   * runs.
   */
  method FillSlot(heap: Heap, ghost before: Blocks, infos: seq<Engine.InstrumentInfo>, blk: Ptr, i: nat)
    requires heap.Valid() && Filling(before, heap.blocks, infos, blk, i) && i < |infos|
    modifies heap
    ensures heap.Valid() && Filling(before, heap.blocks, infos, blk, i + 1)
  {
    ghost var m0 := heap.blocks;
    var res, t := ConvertInfo(heap, infos[i], Slot(blk, i));
    assert res == Ok;
    ConvertedStep(m0, heap.blocks, infos, blk, i, t);
    OwningStep(before, m0, heap.blocks, blk, i, t);
  }

  /** A filled array is a listing. */
  lemma FilledIsListed(before: Blocks, m: Blocks, infos: seq<Engine.InstrumentInfo>, blk: Ptr)
    requires Filling(before, m, infos, blk, |infos|)
    ensures Listed(before, m, infos, blk)
  {
  }

  /**
   * The body shared by sch_instrument_get_available, _get_by_category and
   * _search once the manager has answered: allocate one block, convert
   * each descriptor into it, then publish the count. A refused block
   * leaves *out_instruments NULL, *out_count untouched and the heap as it
   * was.
   */
  method Materialise(heap: Heap, infos: seq<Engine.InstrumentInfo>, out: Cell<Ptr>, count: Cell<nat>)
    returns (r: Status)
    requires heap.Valid()
    modifies heap, out, count
    ensures heap.Valid()
    ensures r == Ok || r == OutOfMemory
    ensures r == OutOfMemory ==> && out.value == NULL && count.value == old(count.value)
                                 && heap.blocks == old(heap.blocks)
    ensures r == Ok ==> count.value == |infos| && Listed(old(heap.blocks), heap.blocks, infos, out.value)
  {
    ghost var before := heap.blocks;
    var blk := heap.Malloc(InfoArray(seq(|infos|, _ => Unwritten)));
    out.value := blk;
    if blk == NULL {
      return OutOfMemory;
    }
    assert OwnedPrefix(Rows(heap.blocks[blk]), 0) == {};
    var i := 0;
    while i < |infos|
      invariant heap.Valid() && out.value == blk && count.value == old(count.value)
      invariant Filling(before, heap.blocks, infos, blk, i)
    {
      FillSlot(heap, before, infos, blk, i);
      i := i + 1;
    }
    FilledIsListed(before, heap.blocks, infos, blk);
    count.value := |infos|;
    r := Ok;
  }
}
