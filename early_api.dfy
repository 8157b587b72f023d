/** The original public API (src/libsafetynet.c) over the priority list of
    src/pri_list.c: every call works on the one global list `mem_list`, with
    the file's cache globals as they start (caching on, not locked), and
    reports recoverable failures through the last-error code.

    Nothing in this API ever calls add_cache_node, so the cache table stays
    empty; a lookup then faults exactly when it triggers the sweep, which as
    written dereferences an empty slot (see PriList.SweepFaults). Every call
    that looks a pointer up therefore returns an Outcome.

    The raw allocator's answer (`malloc`), the address of a new list node
    and the calling thread's id are parameters. */
module EarlyApi {
  import opened Common
  import opened Registry
  import opened PriList
  import AllocManager

  /** Whether `data` is tracked by some payload. */
  ghost predicate Tracks(bs: seq<Block>, data: Ptr)
  {
    FirstMatch(bs, 0, DataIs(data)).Some?
  }

  /** Whether a lookup of `data` through the API faults: it finds a block
      whose weight has reached WEIGHT_CAP, or any block while the clock is
      at TTO_LIMIT. */
  ghost predicate LookupFaults(bs: seq<Block>, data: Ptr, tto: u8)
  {
    var m := FirstMatch(bs, 0, DataIs(data));
    m.Some? && (bs[m.value].weight >= WEIGHT_CAP || tto == TTO_LIMIT)
  }

  /** The first match in a sequence whose first element does not match is
      the first match in the rest of it, one position later. */
  lemma FirstMatchShift(all: seq<Block>, rest: seq<Block>, p: Block -> bool)
    requires |all| == |rest| + 1 && !p(all[0])
    requires forall j :: 0 <= j < |rest| ==> all[j + 1] == rest[j]
    ensures FirstMatch(all, 0, p) == match FirstMatch(rest, 0, p)
      case None => None
      case Some(j) => Some(j + 1)
  {
    var a := FirstMatch(all, 0, p);
    if a.Some? {
      assert p(rest[a.value - 1]);
      var r := FirstMatch(rest, 0, p);
      assert p(all[r.value + 1]);
    }
  }

  /** A lookup of a non-NULL pointer in a list with an empty cache and a
      head holding NULL, with caching on and unlocked, as written: it faults
      exactly when LookupFaults says so; otherwise it returns the record of
      the first payload tracking `data` (NULL when there is none), leaves
      the cache as it was and changes only cache bookkeeping in the list. */
  lemma EarlyLookup(w: World, chain: seq<Ptr>, data: Ptr)
    requires Linked(w.heap, chain) && |w.slots| == CACHE_SLOTS && AllEmpty(w.slots)
    requires data != NULL && w.heap[chain[0]].block.data == NULL
    ensures var r := QueryOf(w, chain, data, true, false, false);
      var bs := Payloads(w.heap, chain); var m := FirstMatch(bs, 0, DataIs(data));
      (r.Crashed? <==> LookupFaults(bs, data, w.tto)) &&
      (r.Returned? ==>
        r.value.0 == (if m.None? then NULL else chain[m.value + 1]) &&
        r.value.1.slots == w.slots && r.value.1.count == w.count &&
        Linked(r.value.1.heap, chain) && AllocManager.Retagged(w.heap, r.value.1.heap))
  {
    var all := Project(w.heap, chain);
    var bs := Payloads(w.heap, chain);
    assert w.slots[0] == EMPTY_PAIR;
    assert CachedNode(w.slots, data, true) == NULL;
    forall j | 0 <= j < |bs|
      ensures all[j + 1] == bs[j]
    {
      PayloadAt(w.heap, chain, j);
    }
    FirstMatchShift(all, bs, DataIs(data));
    var r := QueryOf(w, chain, data, true, false, false);
    var m := FirstMatch(bs, 0, DataIs(data));
    if m.Some? {
      var k := m.value + 1;
      assert all[k] == w.heap[chain[k]].block;
      if bs[m.value].weight >= WEIGHT_CAP || w.tto == TTO_LIMIT {
        QueryFaults(w, chain, data, k);
      } else {
        QueryBumps(w, chain, data, true, false, false, k);
        var n := chain[k];
        var h := Weighed(w.heap, n, w.heap[n].block.weight + 1);
        WeighedRetagged(w.heap, w.heap, n, w.heap[n].block.weight + 1);
        LinkedRetagged(w.heap, h, chain);
      }
    }
  }

  /** The library's state: the list and the last-error code. */
  class EarlyLibrary {
    const list: PriList
    var lastError: ErrorCode

    /** The list as list_init and the file's globals leave it: caching on,
        not locked, the cache empty (nothing in this API fills it), and a
        head holding no data. */
    ghost predicate Valid()
      reads this, list, list.slots
    {
      list.Valid() && list.caching && !list.locked && AllEmpty(list.slots[..]) &&
      list.heap[list.head].block.data == NULL
    }

    /** The payloads of the list, head excluded. */
    ghost function Blocks(): seq<Block>
      reads this, list
      requires Linked(list.heap, list.chain)
    {
      Payloads(list.heap, list.chain)
    }

    /** mem_list = list_init() on the record `rec`, with no error. */
    constructor (rec: Ptr)
      requires rec != NULL
      ensures Valid() && fresh(list) && Blocks() == [] && lastError == ErrOk
    {
      list := new PriList(rec, true, false);
      lastError := ErrOk;
    }

    /** sn_reset_last_error. */
    method ResetLastError()
      modifies this`lastError
      ensures lastError == ErrOk
    {
      lastError := ErrOk;
    }

    /** list_query(mem_list, ptr) as the API makes it. */
    method Lookup(ptr: Ptr) returns (o: Outcome<Ptr>)
      requires Valid() && ptr != NULL
      modifies list`heap, list`count, list`tto, list`lastAccess, list.slots
      ensures o.Crashed? <==> LookupFaults(old(Blocks()), ptr, old(list.tto))
      ensures o.Returned? ==>
        var m := FirstMatch(old(Blocks()), 0, DataIs(ptr));
        Valid() && AllocManager.Tracked(Blocks()) == AllocManager.Tracked(old(Blocks())) &&
        list.heap.Keys == old(list.heap.Keys) && (o.value == NULL <==> m.None?) &&
        (m.Some? ==> o.value == list.chain[m.value + 1])
    {
      ghost var w0 := list.State();
      LinkAt(w0.heap, list.chain, 0);
      LinkedNonNull(w0.heap, list.chain);
      EarlyLookup(w0, list.chain, ptr);
      o := list.Query(ptr, false);
      if o.Returned? {
        AllocManager.RetaggedPayloads(w0.heap, list.heap, list.chain);
        var e0, e := w0.heap[list.head], list.heap[list.head];
        assert e.(block := AllocManager.Untagged(e.block)) == e0.(block := AllocManager.Untagged(e0.block));
      }
    }

    /** sn_malloc: refuse size 0; `pr` is what malloc returned (NULL when
        it failed); otherwise add a node for it and record its size. */
    method SnMalloc(size: usize, pr: Ptr, tid: nat, rec: Ptr) returns (r: Ptr)
      requires Valid() && rec != NULL && rec !in list.heap
      modifies list, this`lastError
      ensures Valid()
      ensures if size == 0 || pr == NULL then
          r == NULL && lastError == (if size == 0 then ErrBadSize else ErrBadAlloc) &&
          list.chain == old(list.chain) && Blocks() == old(Blocks())
        else
          r == pr && lastError == old(lastError) && list.chain == old(list.chain) + [rec] &&
          Blocks() == old(Blocks()) + [Block(pr, size, tid, false, 0, 0)]
    {
      if size == 0 {
        lastError := ErrBadSize;
        return NULL;
      }
      if pr == NULL {
        lastError := ErrBadAlloc;
        return NULL;
      }
      Track(pr, size, tid, rec);
      return pr;
    }

    /** `list_add(mem_list, data)` followed by `n->size = size`. */
    method Track(data: Ptr, size: usize, tid: nat, rec: Ptr)
      requires Valid() && rec != NULL && rec !in list.heap
      modifies list
      ensures Valid() && list.chain == old(list.chain) + [rec]
      ensures Blocks() == old(Blocks()) + [Block(data, size, tid, false, 0, 0)]
    {
      ghost var h0 := list.heap;
      LinkAt(h0, list.chain, 0);
      var n := list.Add(data, tid, rec);
      ghost var k := |list.chain| - 1;
      LinkedSetBlock(list.heap, list.chain, k, list.heap[n].block.(size := size));
      list.Resize(n, size);
    }

    /** sn_free: refuse NULL; look `ptr` up; a found node is unlinked and
        destroyed (the block itself is released too); an unknown pointer
        is a double free. */
    method SnFree(ptr: Ptr) returns (o: Outcome<()>)
      requires Valid()
      modifies list, list.slots, this`lastError
      ensures o.Crashed? <==> ptr != NULL && LookupFaults(old(Blocks()), ptr, old(list.tto))
      ensures o.Returned? ==> Valid()
      ensures o.Returned? && ptr == NULL ==>
        lastError == ErrNullPtr && list.chain == old(list.chain) && Blocks() == old(Blocks())
      ensures o.Returned? && ptr != NULL ==>
        var bs := old(Blocks()); var m := FirstMatch(bs, 0, DataIs(ptr));
        if m.None? then
          lastError == WarnDubFree && list.chain == old(list.chain) && AllocManager.Tracked(Blocks()) == AllocManager.Tracked(bs)
        else
          lastError == old(lastError) && list.chain == RemoveAt(old(list.chain), m.value + 1) &&
          AllocManager.Tracked(Blocks()) == RemoveAt(AllocManager.Tracked(bs), m.value)
    {
      if ptr == NULL {
        lastError := ErrNullPtr;
        return Returned(());
      }
      ghost var c0 := list.chain;
      var q := Lookup(ptr);
      if q.Crashed? {
        return Crashed(q.fault);
      }
      if q.value == NULL {
        lastError := WarnDubFree;
        return Returned(());
      }
      Release(q.value, FirstMatch(old(Blocks()), 0, DataIs(ptr)).value + 1);
      o := Returned(());
    }

    /** list_free on the node at position k of the list, k >= 1. */
    method Release(node: Ptr, ghost k: nat)
      requires Valid() && 1 <= k < |list.chain| && list.chain[k] == node
      modifies list, list.slots
      ensures Valid() && list.chain == RemoveAt(old(list.chain), k)
      ensures AllocManager.Tracked(Blocks()) == RemoveAt(AllocManager.Tracked(old(Blocks())), k - 1)
    {
      ghost var bs := Blocks();
      ghost var h0 := list.heap;
      LinkedDistinct(list.heap, list.chain);
      IndexOfDistinct(list.chain, k);
      LinkAt(list.heap, list.chain, 0);
      LinkAt(list.heap, list.chain, k);
      list.Free(node);
      UnlinkKeepsBlocks(h0, h0[node].previous, node, h0[node].next);
      AllocManager.TrackedRemoveAt(bs, k - 1);
    }

    /** sn_register: the error becomes NO_SIZE in any case; refuse NULL;
        look `ptr` up and add a node (size 0) when it is not tracked yet. */
    method SnRegister(ptr: Ptr, tid: nat, rec: Ptr) returns (o: Outcome<Ptr>)
      requires Valid() && rec != NULL && rec !in list.heap
      modifies list, list.slots, this`lastError
      ensures o.Crashed? <==> ptr != NULL && LookupFaults(old(Blocks()), ptr, old(list.tto))
      ensures o.Returned? ==>
        Valid() && o.value == ptr && lastError == (if ptr == NULL then ErrNullPtr else ErrNoSize) &&
        AllocManager.Tracked(Blocks()) == AllocManager.Tracked(old(Blocks())) +
          (if ptr == NULL || Tracks(old(Blocks()), ptr) then [] else [Block(ptr, 0, tid, false, 0, 0)])
      ensures o.Returned? && ptr != NULL ==> Tracks(Blocks(), ptr)
    {
      lastError := ErrNoSize;
      if ptr == NULL {
        lastError := ErrNullPtr;
        return Returned(NULL);
      }
      o := Adopt(ptr, 0, tid, rec);
      if o.Returned? {
        o := Returned(ptr);
      }
    }

    /** The common tail of sn_register and sn_register_size: look `ptr` up
        and add a node holding it with `size` when it is absent; the result
        is the node the lookup found. */
    method Adopt(ptr: Ptr, size: usize, tid: nat, rec: Ptr) returns (o: Outcome<Ptr>)
      requires Valid() && ptr != NULL && rec != NULL && rec !in list.heap
      modifies list, list.slots
      ensures o.Crashed? <==> LookupFaults(old(Blocks()), ptr, old(list.tto))
      ensures o.Returned? ==>
        Valid() && (o.value == NULL <==> !Tracks(old(Blocks()), ptr)) &&
        AllocManager.Tracked(Blocks()) == AllocManager.Tracked(old(Blocks())) +
          (if Tracks(old(Blocks()), ptr) then [] else [Block(ptr, size, tid, false, 0, 0)]) &&
        Tracks(Blocks(), ptr)
    {
      ghost var bs := Blocks();
      o := Lookup(ptr);
      if o.Crashed? {
        return;
      }
      ghost var bs1 := Blocks();
      if o.value == NULL {
        Track(ptr, size, tid, rec);
        AllocManager.TrackedAppend(bs1, Block(ptr, size, tid, false, 0, 0));
        assert Blocks()[|bs1|].data == ptr;
      } else {
        LinkAt(list.heap, list.chain, 0);
        assert AllocManager.Tracked(bs) + [] == AllocManager.Tracked(bs);
        var j := FirstMatch(bs, 0, DataIs(ptr)).value;
        assert AllocManager.Tracked(bs1)[j].data == ptr;
      }
    }

    /** sn_register_size: refuse size 0, then NULL; a pointer not tracked yet
        gets a node with `size`; a tracked one is refused with
        NO_ADDER_FOUND. */
    method SnRegisterSize(ptr: Ptr, size: usize, tid: nat, rec: Ptr) returns (o: Outcome<Ptr>)
      requires Valid() && rec != NULL && rec !in list.heap
      modifies list, list.slots, this`lastError
      ensures o.Crashed? <==> size != 0 && ptr != NULL && LookupFaults(old(Blocks()), ptr, old(list.tto))
      ensures o.Returned? ==> Valid()
      ensures o.Returned? ==>
        var bs := old(Blocks());
        if size == 0 || ptr == NULL then
          o.value == NULL && lastError == (if size == 0 then ErrBadSize else ErrNullPtr) && Blocks() == bs
        else if Tracks(bs, ptr) then
          o.value == NULL && lastError == ErrNoAdderFound && AllocManager.Tracked(Blocks()) == AllocManager.Tracked(bs)
        else
          o.value == ptr && lastError == old(lastError) &&
          AllocManager.Tracked(Blocks()) == AllocManager.Tracked(bs) + [Block(ptr, size, tid, false, 0, 0)]
    {
      if size == 0 {
        lastError := ErrBadSize;
        return Returned(NULL);
      }
      if ptr == NULL {
        lastError := ErrNullPtr;
        return Returned(NULL);
      }
      ghost var bs := Blocks();
      o := Adopt(ptr, size, tid, rec);
      if o.Crashed? {
        return;
      }
      if o.value == NULL {
        return Returned(ptr);
      }
      assert AllocManager.Tracked(bs) + [] == AllocManager.Tracked(bs);
      lastError := ErrNoAdderFound;
      o := Returned(NULL);
    }

    /** sn_query_size: refuse NULL; the size of the first node tracking
        `ptr` (NO_SIZE when it is 0), or 0 with NO_ADDER_FOUND. */
    method SnQuerySize(ptr: Ptr) returns (o: Outcome<usize>)
      requires Valid()
      modifies list`heap, list`count, list`tto, list`lastAccess, list.slots, this`lastError
      ensures o.Crashed? <==> ptr != NULL && LookupFaults(old(Blocks()), ptr, old(list.tto))
      ensures o.Returned? ==>
        Valid() && AllocManager.Tracked(Blocks()) == AllocManager.Tracked(old(Blocks())) &&
        var bs := old(Blocks()); var m := FirstMatch(bs, 0, DataIs(ptr));
        if ptr == NULL then
          o.value == 0 && lastError == ErrNullPtr
        else if m.None? then
          o.value == 0 && lastError == ErrNoAdderFound
        else
          o.value == bs[m.value].size && lastError == (if bs[m.value].size == 0 then ErrNoSize else old(lastError))
    {
      if ptr == NULL {
        lastError := ErrNullPtr;
        return Returned(0);
      }
      ghost var bs := Blocks();
      var q := Lookup(ptr);
      if q.Crashed? {
        return Crashed(q.fault);
      }
      if q.value == NULL {
        lastError := ErrNoAdderFound;
        return Returned(0);
      }
      ghost var j := FirstMatch(bs, 0, DataIs(ptr)).value;
      PayloadAt(list.heap, list.chain, j);
      assert AllocManager.Tracked(Blocks())[j] == AllocManager.Tracked(bs)[j];
      var size := list.heap[q.value].block.size;
      if size == 0 {
        lastError := ErrNoSize;
      }
      o := Returned(size);
    }

    /** sn_query_tid: refuse NULL; the thread of the first node tracking
        `ptr`, or 0 with NO_ADDER_FOUND. */
    method SnQueryTid(ptr: Ptr) returns (o: Outcome<nat>)
      requires Valid()
      modifies list`heap, list`count, list`tto, list`lastAccess, list.slots, this`lastError
      ensures o.Crashed? <==> ptr != NULL && LookupFaults(old(Blocks()), ptr, old(list.tto))
      ensures o.Returned? ==>
        Valid() && AllocManager.Tracked(Blocks()) == AllocManager.Tracked(old(Blocks())) &&
        var bs := old(Blocks()); var m := FirstMatch(bs, 0, DataIs(ptr));
        if ptr == NULL then
          o.value == 0 && lastError == ErrNullPtr
        else if m.None? then
          o.value == 0 && lastError == ErrNoAdderFound
        else
          o.value == bs[m.value].tid && lastError == old(lastError)
    {
      if ptr == NULL {
        lastError := ErrNullPtr;
        return Returned(0);
      }
      ghost var bs := Blocks();
      var q := Lookup(ptr);
      if q.Crashed? {
        return Crashed(q.fault);
      }
      if q.value == NULL {
        lastError := ErrNoAdderFound;
        return Returned(0);
      }
      ghost var j := FirstMatch(bs, 0, DataIs(ptr)).value;
      PayloadAt(list.heap, list.chain, j);
      assert AllocManager.Tracked(Blocks())[j] == AllocManager.Tracked(bs)[j];
      o := Returned(list.heap[q.value].block.tid);
    }

    /** sn_is_tracked_block: refuse NULL; whether some node tracks `ptr`. */
    method SnIsTrackedBlock(ptr: Ptr) returns (o: Outcome<bool>)
      requires Valid()
      modifies list`heap, list`count, list`tto, list`lastAccess, list.slots, this`lastError
      ensures o.Crashed? <==> ptr != NULL && LookupFaults(old(Blocks()), ptr, old(list.tto))
      ensures o.Returned? ==>
        Valid() && AllocManager.Tracked(Blocks()) == AllocManager.Tracked(old(Blocks())) &&
        (o.value <==> ptr != NULL && Tracks(old(Blocks()), ptr)) &&
        lastError == (if ptr == NULL then ErrNullPtr else old(lastError))
    {
      if ptr == NULL {
        lastError := ErrNullPtr;
        return Returned(false);
      }
      var q := Lookup(ptr);
      if q.Crashed? {
        return Crashed(q.fault);
      }
      LinkAt(list.heap, list.chain, 0);
      o := Returned(q.value != NULL);
    }
  }
}
