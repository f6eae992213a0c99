/**
 * The C allocator as the bridge uses it: malloc may refuse, free must be
 * given a live block, and every block the bridge hands out is owned by the
 * caller until the matching release helper frees it. Caller-provided
 * output locations (`T*` arguments) are Cells.
 */
module Memory {
  import opened Abi

  /** What a live allocation holds. */
  datatype Block =
    | Text(bytes: seq<Byte>)           // a NUL-terminated C string
    | InfoArray(infos: seq<InfoT>)     // a malloc'd sch_instrument_info_t[n]
    | PresetArray(presets: seq<PresetT>) // a malloc'd sch_preset_info_t[n]

  /** The live allocations, by address. */
  type Blocks = map<Ptr, Block>

  /** A caller-owned memory location of type T, passed to the bridge as `T*`. */
  class Cell<T> {
    var value: T

    constructor (v: T)
      ensures value == v
    {
      value := v;
    }
  }

  /** The non-null pointers among ps. */
  function NonNull(ps: seq<Ptr>): set<Ptr>
  {
    set p | p in ps && p != NULL
  }

  /** No non-null pointer occurs twice in ps. */
  ghost predicate DistinctNonNull(ps: seq<Ptr>)
  {
    forall i, j :: 0 <= i < j < |ps| && ps[i] != NULL ==> ps[i] != ps[j]
  }

  /** Freeing every non-null pointer of ps once, in order, frees only live blocks. */
  ghost predicate Releasable(m: Blocks, ps: seq<Ptr>)
  {
    DistinctNonNull(ps) && NonNull(ps) <= m.Keys
  }

  /** The text pointers held by each element of an array block. */
  function Rows(b: Block): (rows: seq<seq<Ptr>>)
    ensures b.InfoArray? ==> |rows| == |b.infos|
    ensures b.PresetArray? ==> |rows| == |b.presets|
  {
    match b
    case Text(_) => []
    case InfoArray(infos) => seq(|infos|, k requires 0 <= k < |infos| => infos[k].Texts())
    case PresetArray(ps) => seq(|ps|, k requires 0 <= k < |ps| => ps[k].Texts())
  }

  /** Every non-null pointer held by the first n rows. */
  function OwnedPrefix(rows: seq<seq<Ptr>>, n: nat): set<Ptr>
    requires n <= |rows|
  {
    if n == 0 then {} else OwnedPrefix(rows, n - 1) + NonNull(rows[n - 1])
  }

  /** No pointer is shared between two of the first n rows. */
  ghost predicate RowsDisjoint(rows: seq<seq<Ptr>>, n: nat)
    requires n <= |rows|
  {
    forall j, k :: 0 <= j < k < n ==> NonNull(rows[j]) !! NonNull(rows[k])
  }

  /** Each of the first n rows may be released, and no two of them share a block. */
  ghost predicate RowsReleasable(m: Blocks, rows: seq<seq<Ptr>>, n: nat)
    requires n <= |rows|
  {
    && (forall k :: 0 <= k < n ==> Releasable(m, rows[k]))
    && RowsDisjoint(rows, n)
  }

  /**
   * p is a live array block whose first n elements own distinct live text
   * blocks, none of them p itself: what a release helper needs of its
   * arguments.
   */
  ghost predicate ReleasableArray(m: Blocks, p: Ptr, n: nat)
  {
    && p in m && !m[p].Text?
    && n <= |Rows(m[p])|
    && RowsReleasable(m, Rows(m[p]), n)
    && p !in OwnedPrefix(Rows(m[p]), n)
  }

  /** A pointer is owned by the first n rows exactly when one of those rows holds it. */
  lemma {:induction false} OwnedPrefixMember(rows: seq<seq<Ptr>>, n: nat, p: Ptr)
    requires n <= |rows|
    ensures p in OwnedPrefix(rows, n) <==> exists k :: 0 <= k < n && p in NonNull(rows[k])
  {
    if n > 0 {
      OwnedPrefixMember(rows, n - 1, p);
    }
  }

  /** A row beyond the prefix shares no block with it. */
  lemma {:induction false} OwnedPrefixDisjoint(rows: seq<seq<Ptr>>, bound: nat, n: nat, k: nat)
    requires n <= k < bound <= |rows|
    requires RowsDisjoint(rows, bound)
    ensures NonNull(rows[k]) !! OwnedPrefix(rows, n)
  {
    if n > 0 {
      OwnedPrefixDisjoint(rows, bound, n - 1, k);
      assert NonNull(rows[n - 1]) !! NonNull(rows[k]);
    }
  }

  /** A longer prefix owns every pointer a shorter one does. */
  lemma {:induction false} OwnedPrefixGrows(rows: seq<seq<Ptr>>, i: nat, n: nat)
    requires i <= n <= |rows|
    ensures OwnedPrefix(rows, i) <= OwnedPrefix(rows, n)
    decreases n - i
  {
    if i < n {
      OwnedPrefixGrows(rows, i + 1, n);
    }
  }

  /** The prefix depends only on the rows it covers. */
  lemma {:induction false} OwnedPrefixAgree(a: seq<seq<Ptr>>, b: seq<seq<Ptr>>, n: nat)
    requires n <= |a| && n <= |b|
    requires forall k :: 0 <= k < n ==> a[k] == b[k]
    ensures OwnedPrefix(a, n) == OwnedPrefix(b, n)
  {
    if n > 0 {
      OwnedPrefixAgree(a, b, n - 1);
    }
  }

  /** Rows whose blocks are live have a live prefix. */
  lemma {:induction false} OwnedPrefixLive(m: Blocks, rows: seq<seq<Ptr>>, n: nat)
    requires n <= |rows|
    requires forall k :: 0 <= k < n ==> NonNull(rows[k]) <= m.Keys
    ensures OwnedPrefix(rows, n) <= m.Keys
  {
    if n > 0 {
      OwnedPrefixLive(m, rows, n - 1);
    }
  }

  /**
   * The C heap. Addresses are handed out once and never reused, so a block
   * that is freed can never be confused with a later one.
   */
  class Heap {
    var blocks: Blocks
    var next: Ptr

    ghost predicate Valid()
      reads this
    {
      NULL < next && forall p :: p in blocks ==> NULL < p < next
    }

    constructor ()
      ensures Valid() && blocks == map[]
    {
      blocks := map[];
      next := 1;
    }

    /**
     * malloc of a block together with the writes that fill it. The
     * allocator may refuse any request, including one of size zero; then
     * the result is NULL and nothing changes.
     */
    method Malloc(b: Block) returns (p: Ptr)
      requires Valid()
      modifies this
      ensures Valid()
      ensures p == NULL ==> blocks == old(blocks)
      ensures p != NULL ==> p !in old(blocks) && blocks == old(blocks)[p := b]
    {
      var granted: bool :| true;
      if granted {
        p := next;
        blocks := blocks[p := b];
        next := next + 1;
      } else {
        p := NULL;
      }
    }

    /** free of a live block. */
    method Free(p: Ptr)
      requires Valid()
      requires p in blocks
      modifies this
      ensures Valid()
      ensures blocks == old(blocks) - {p}
    {
      blocks := blocks - {p};
    }

    /** Writes element i of a live sch_instrument_info_t array. */
    method StoreInfo(p: Ptr, i: nat, t: InfoT)
      requires Valid()
      requires p in blocks && blocks[p].InfoArray? && i < |blocks[p].infos|
      modifies this
      ensures Valid()
      ensures blocks == old(blocks)[p := InfoArray(old(blocks)[p].infos[i := t])]
    {
      blocks := blocks[p := InfoArray(blocks[p].infos[i := t])];
    }
  }
}
