/** The public API of the library (src/sn_allocator.c, src/sn_metadata.c,
    src/sn_cache.c, src/sn_error.c): every call works on the one global
    registry `mem_list` and the one global manager `memory_manager`, and
    reports recoverable failures through the last-error code.

    The raw allocator's answer (`malloc`), the address of a new bookkeeping
    record and the calling thread's id are parameters. Most metadata calls
    first run the manager's sweep ("steal some CPU time"); the allocation,
    free and cache calls do not. */
module SafetyNet {
  import opened Common
  import opened Registry
  import opened AllocManager

  /** sn_set_block_id refuses every tag up to and including this one. */
  const RESERVED_BLOCK_IDS: u16 := 20

  /** Two payload sequences on which `p` agrees position by position give
      the same first match. */
  lemma {:induction false} FirstMatchAgree(bs: seq<Block>, bs': seq<Block>, p: Block -> bool, i: nat)
    requires |bs| == |bs'| && i <= |bs|
    requires forall j :: i <= j < |bs| ==> p(bs[j]) == p(bs'[j])
    ensures FirstMatch(bs, i, p) == FirstMatch(bs', i, p)
    decreases |bs| - i
  {
    if i < |bs| {
      FirstMatchAgree(bs, bs', p, i + 1);
    }
  }

  /** Registries that track the same payloads answer every search by address
      or by tag alike, and agree on every tracked field. */
  lemma TrackedSearch(bs: seq<Block>, bs': seq<Block>, key: Ptr, id: u16)
    requires Tracked(bs) == Tracked(bs')
    ensures |bs| == |bs'|
    ensures forall j :: 0 <= j < |bs| ==>
      bs[j].data == bs'[j].data && bs[j].size == bs'[j].size && bs[j].tid == bs'[j].tid && bs[j].blockId == bs'[j].blockId
    ensures FirstMatch(bs, 0, DataIs(key)) == FirstMatch(bs', 0, DataIs(key))
    ensures FirstMatch(bs, 0, IdIs(id)) == FirstMatch(bs', 0, IdIs(id))
  {
    assert forall j :: 0 <= j < |bs| ==> Tracked(bs)[j] == Tracked(bs')[j];
    FirstMatchAgree(bs, bs', DataIs(key), 0);
    FirstMatchAgree(bs, bs', IdIs(id), 0);
  }

  /** The bytes tracked for thread `tid`: the sum of the sizes of its entries,
      without size_t wrap-around. */
  function Usage(bs: seq<Block>, tid: nat): (n: nat)
    ensures (forall j :: 0 <= j < |bs| ==> bs[j].tid != tid) ==> n == 0
    ensures (forall j :: 0 <= j < |bs| ==> bs[j].tid == tid) && |bs| > 0 ==> n >= bs[0].size
  {
    if bs == [] then 0 else (if bs[0].tid == tid then bs[0].size else 0) + Usage(bs[1..], tid)
  }

  /** search_for_tid: an entry of thread `tid` adds its size to the size_t
      accumulator; the walk always goes on. */
  function UsageWorker(tid: nat): (usize, Block, nat) -> (usize, Step)
  {
    (acc: usize, b: Block, i: nat) => (if b.tid == tid then (acc + b.size) % SIZE_MOD else acc, Continue)
  }

  /** Usage adds up over a concatenation. */
  lemma {:induction false} UsageConcat(a: seq<Block>, b: seq<Block>, tid: nat)
    ensures Usage(a + b, tid) == Usage(a, tid) + Usage(b, tid)
  {
    if a == [] {
      assert a + b == b;
    } else {
      assert (a + b)[1..] == a[1..] + b;
      UsageConcat(a[1..], b, tid);
    }
  }

  /** A newly tracked entry adds its size to its own thread's usage and
      nothing to any other's. */
  lemma UsageAppend(bs: seq<Block>, b: Block, tid: nat)
    ensures Usage(bs + [b], tid) == Usage(bs, tid) + (if b.tid == tid then b.size else 0)
  {
    UsageConcat(bs, [b], tid);
    assert [b][1..] == [];
  }

  /** Removing the entry at position k takes its size off its thread's usage. */
  lemma UsageRemoveAt(bs: seq<Block>, k: nat, tid: nat)
    requires k < |bs|
    ensures Usage(RemoveAt(bs, k), tid) + (if bs[k].tid == tid then bs[k].size else 0) == Usage(bs, tid)
  {
    assert bs == bs[..k] + ([bs[k]] + bs[k + 1..]);
    UsageConcat(bs[..k], [bs[k]] + bs[k + 1..], tid);
    UsageConcat([bs[k]], bs[k + 1..], tid);
    UsageConcat(bs[..k], bs[k + 1..], tid);
    assert [bs[k]][1..] == [];
  }

  /** Usage reads only the tracked fields. */
  lemma {:induction false} UsageTracked(bs: seq<Block>, bs': seq<Block>, tid: nat)
    requires |bs| == |bs'| && forall j :: 0 <= j < |bs| ==> bs[j].tid == bs'[j].tid && bs[j].size == bs'[j].size
    ensures Usage(bs, tid) == Usage(bs', tid)
  {
    if bs != [] {
      UsageTracked(bs[1..], bs'[1..], tid);
    }
  }

  /** The sum worker's walk from position i adds the usage of bs[i..] to the
      accumulator, modulo 2^64, and never stops early. */
  lemma {:induction false} UsageWalk(bs: seq<Block>, i: nat, tid: nat, acc: usize)
    requires i <= |bs|
    ensures Walk(bs, i, acc, UsageWorker(tid)) == ((acc + Usage(bs[i..], tid)) % SIZE_MOD, None)
    decreases |bs| - i
  {
    if i < |bs| {
      var s := if bs[i].tid == tid then bs[i].size else 0;
      var acc' := UsageWorker(tid)(acc, bs[i], i).0;
      assert acc' == (acc + s) % SIZE_MOD;
      assert bs[i..][1..] == bs[i + 1..];
      UsageWalk(bs, i + 1, tid, acc');
      ModSum(acc + s, Usage(bs[i + 1..], tid));
    }
  }

  /** Reducing a partial sum modulo 2^64 does not change the final residue. */
  lemma ModSum(a: nat, b: nat)
    ensures (a % SIZE_MOD + b) % SIZE_MOD == (a + b) % SIZE_MOD
  {
    var q := a / SIZE_MOD;
    assert a == q * SIZE_MOD + a % SIZE_MOD;
  }

  /** Linking a fresh record after the tail keeps every slot live. */
  lemma LivePush(c: Cache, chain: seq<Ptr>, head: Ptr, last: Ptr, rec: Ptr, e: Entry)
    requires Live(c, chain, head) && last in c.heap && rec !in c.heap
    ensures Live(Cache(c.slots, c.heap[last := c.heap[last].(next := rec)][rec := e], c.avail), chain + [rec], head)
  {
  }

  /** Unlinking the record at position k, which no slot names, keeps every
      slot live: each other record keeps its payload. */
  lemma LiveRemove(c: Cache, h: map<Ptr, Entry>, chain: seq<Ptr>, k: nat)
    requires Linked(c.heap, chain) && 1 <= k < |chain| && Live(c, chain, chain[0])
    requires Linked(h, RemoveAt(chain, k)) && Payloads(h, RemoveAt(chain, k)) == RemoveAt(Payloads(c.heap, chain), k - 1)
    requires forall i :: 0 <= i < |c.slots| ==> c.slots[i].value != chain[k]
    ensures Live(Cache(c.slots, h, c.avail), RemoveAt(chain, k), chain[0])
  {
    forall i | 0 <= i < |c.slots| && c.slots[i].value != NULL
      ensures c.slots[i].value in RemoveAt(chain, k) && c.slots[i].value in h &&
              h[c.slots[i].value].block == c.heap[c.slots[i].value].block
    {
      Survives(c.heap, h, chain, k, c.slots[i].value);
    }
  }

  /** A record other than the sentinel and the unlinked one stays, with its payload. */
  lemma Survives(h0: map<Ptr, Entry>, h: map<Ptr, Entry>, chain: seq<Ptr>, k: nat, v: Ptr)
    requires Linked(h0, chain) && 1 <= k < |chain| && v in chain && v != chain[0] && v != chain[k]
    requires Linked(h, RemoveAt(chain, k)) && Payloads(h, RemoveAt(chain, k)) == RemoveAt(Payloads(h0, chain), k - 1)
    ensures v in RemoveAt(chain, k) && v in h && h[v].block == h0[v].block
  {
    var rc := RemoveAt(chain, k);
    var m := IndexOf(chain, v);
    PayloadAt(h0, chain, m - 1);
    if m < k {
      assert rc[m] == v;
      PayloadAt(h, rc, m - 1);
    } else {
      assert rc[m - 1] == v;
      PayloadAt(h, rc, m - 2);
    }
  }

  /** Destroying the record at position k without unlinking it leaves its
      predecessor live and still pointing at it: the arena is no longer a
      linked list. */
  lemma DestroyLeavesDangling(heap: map<Ptr, Entry>, chain: seq<Ptr>, k: nat)
    requires Linked(heap, chain) && 1 <= k < |chain|
    ensures var h := heap - {chain[k]};
      chain[k - 1] in h && h[chain[k - 1]].next == chain[k] && chain[k] !in h && !Linked(h, chain)
  {
    LinkAt(heap, chain, k - 1);
    LinkedDistinct(heap, chain);
  }


  /** Once no slot is keyed by an entry's address, no slot names the entry. */
  lemma UnnamedAfterEvict(c: Cache, key: Ptr, e: Ptr)
    requires Resolved(c) && key != NULL && e != NULL && e in c.heap && c.heap[e].block.data == key
    requires FirstKey(c.slots, key, 0).None?
    ensures forall i :: 0 <= i < |c.slots| ==> c.slots[i].value != e
  {
    forall i | 0 <= i < |c.slots|
      ensures c.slots[i].value != e
    {
      assert c.slots[i].key != key;
    }
  }

  /** The library's global state: the registry, the manager, and the last error. */
  class Library {
    const list: LinkedList
    const mm: MemMan
    var lastError: ErrorCode

    /** The manager serves the registry. Nothing in the library ever records
        usage, so the manager's usage figure stays at its initial 0. */
    ghost predicate Valid()
      reads this, list, mm, mm.slots
    {
      mm.Serves(list) && mm.globalMemoryUsage == 0
    }

    /** library_init: an empty registry whose sentinel is the record `rec`,
        a fresh manager, and no error. */
    constructor (rec: Ptr, tid: nat)
      requires rec != NULL
      ensures Valid() && fresh(list) && fresh(mm) && fresh(mm.slots)
      ensures list.Blocks() == [] && lastError == ErrOk
      ensures CountCoherent(mm.State(list)) && CachedCoherent(mm.State(list))
    {
      list := new LinkedList(rec, tid);
      mm := new MemMan();
      lastError := ErrOk;
      new;
      FreshTable(list.heap, list.chain, list.head);
    }

    /** sn_reset_last_error. */
    method ResetLastError()
      modifies this`lastError
      ensures lastError == ErrOk
    {
      lastError := ErrOk;
    }

    /** memman_work on the global state: only cache bookkeeping changes. */
    method Sweep()
      requires Valid()
      modifies list`heap, mm.slots
      ensures Valid() && list.heap.Keys == old(list.heap.Keys)
      ensures Tracked(list.Blocks()) == Tracked(old(list.Blocks()))
    {
      mm.Work(list);
    }

    /** linked_list_push on the global registry. */
    method Track(data: Ptr, size: usize, tid: nat, rec: Ptr)
      requires Valid() && rec != NULL && rec !in list.heap
      modifies list
      ensures Valid() && list.chain == old(list.chain) + [rec]
      ensures list.Blocks() == old(list.Blocks()) + [Block(data, size, tid, false, 0, 0)]
      ensures Tracked(list.Blocks()) == Tracked(old(list.Blocks())) + [Block(data, size, tid, false, 0, 0)]
    {
      ghost var c := mm.State(list);
      ghost var last := list.lastEntry;
      ghost var chain := list.chain;
      list.Push(data, size, tid, rec);
      LivePush(c, chain, list.head, last, rec, NewEntry(last, data, size, tid));
      TrackedAppend(old(list.Blocks()), Block(data, size, tid, false, 0, 0));
    }

    /** linked_list_getByPtr on the global registry. */
    method Find(ptr: Ptr) returns (e: Ptr)
      requires Valid()
      modifies list`heap, list`lastAccess
      ensures Valid()
      ensures var k := FirstMatch(old(list.Blocks()), 0, DataIs(ptr));
        if ptr == NULL || k.None? then
          e == NULL && list.heap == old(list.heap) && list.lastAccess == old(list.lastAccess)
        else
          e == list.chain[k.value + 1] && e != NULL && e != list.head && list.lastAccess == e &&
          list.heap == old(list.heap)[e := Bumped(old(list.heap)[e])]
      ensures Tracked(list.Blocks()) == Tracked(old(list.Blocks()))
    {
      ghost var c := mm.State(list);
      e := list.GetByPtr(ptr);
      if e != NULL {
        ghost var k := FirstMatch(old(list.Blocks()), 0, DataIs(ptr)).value;
        LinkAt(c.heap, list.chain, 0);
        LinkAt(c.heap, list.chain, k + 1);
        LiveReblock(c, list.chain, list.head, e, Bumped(c.heap[e]).block, c.avail);
        RetaggedPayloads(c.heap, list.heap, list.chain);
      }
    }

    /** memman_TryCacheHit on the global state. The ghost `j` is the
        position of the entry found. */
    method CacheFind(ptr: Ptr) returns (e: Ptr, ghost j: nat)
      requires Valid()
      modifies list`heap
      ensures Valid()
      ensures Tracked(list.Blocks()) == Tracked(old(list.Blocks()))
      ensures e == NULL ==> list.heap == old(list.heap)
      ensures e != NULL ==> mm.useCache
      ensures e != NULL ==>
        j < |old(list.Blocks())| && list.chain[j + 1] == e && old(list.Blocks())[j].data == ptr &&
        list.heap[e].block == Bumped(old(list.heap)[e]).block
    {
      ghost var h0 := list.heap;
      e := mm.TryCacheHit(list, ptr);
      j := 0;
      if e != NULL {
        j := IndexOf(list.chain, e) - 1;
        PayloadAt(h0, list.chain, j);
        RetaggedPayloads(h0, list.heap, list.chain);
      }
    }

    /** The lookup sn_query_tid and the block-id calls share: the cache
        first, then the registry. The ghost `j` is the position found. */
    method Lookup(ptr: Ptr) returns (e: Ptr, ghost j: nat)
      requires Valid() && ptr != NULL
      modifies list`heap, list`lastAccess
      ensures Valid()
      ensures Tracked(list.Blocks()) == Tracked(old(list.Blocks()))
      ensures e == NULL <==> FirstMatch(old(list.Blocks()), 0, DataIs(ptr)).None?
      ensures e != NULL ==>
        j < |old(list.Blocks())| && list.chain[j + 1] == e && old(list.Blocks())[j].data == ptr &&
        list.heap[e].block == Bumped(old(list.heap)[e]).block
      ensures e != NULL && !mm.useCache ==> j == FirstMatch(old(list.Blocks()), 0, DataIs(ptr)).value
    {
      e, j := CacheFind(ptr);
      if e == NULL {
        ghost var h0 := list.heap;
        e := Find(ptr);
        if e != NULL {
          j := FirstMatch(old(list.Blocks()), 0, DataIs(ptr)).value;
          PayloadAt(h0, list.chain, j);
        }
      }
    }

    /** linked_list_getById on the global registry. The ghost `j` is the
        position of the entry found. */
    method FindById(id: u16) returns (e: Ptr, ghost j: nat)
      requires Valid()
      modifies list`heap, list`lastAccess
      ensures Valid()
      ensures Tracked(list.Blocks()) == Tracked(old(list.Blocks()))
      ensures var k := FirstMatch(old(list.Blocks()), 0, IdIs(id));
        if k.None? then
          e == NULL
        else
          e != NULL && j == k.value && list.chain[j + 1] == e &&
          list.heap[e].block.data == old(list.Blocks())[j].data
    {
      ghost var c := mm.State(list);
      e := list.GetById(id);
      j := 0;
      if e != NULL {
        j := FirstMatch(old(list.Blocks()), 0, IdIs(id)).value;
        LinkAt(c.heap, list.chain, 0);
        LinkAt(c.heap, list.chain, j + 1);
        PayloadAt(c.heap, list.chain, j);
        LiveReblock(c, list.chain, list.head, e, Bumped(c.heap[e]).block, c.avail);
        RetaggedPayloads(c.heap, list.heap, list.chain);
      }
    }

    /** The lookup sn_query_block_id makes: the cache first, then
        linked_list_getById. The ghost `j` is the position found. */
    method LookupById(id: u16) returns (e: Ptr, ghost j: nat)
      requires Valid()
      modifies list`heap, list`lastAccess
      ensures Valid()
      ensures Tracked(list.Blocks()) == Tracked(old(list.Blocks()))
      ensures e == NULL <==> FirstMatch(old(list.Blocks()), 0, IdIs(id)).None?
      ensures e != NULL ==>
        j < |old(list.Blocks())| && list.chain[j + 1] == e && old(list.Blocks())[j].blockId == id &&
        list.heap[e].block.data == old(list.Blocks())[j].data
      ensures e != NULL && !mm.useCache ==> j == FirstMatch(old(list.Blocks()), 0, IdIs(id)).value
    {
      ghost var c := mm.State(list);
      e := mm.TryCacheHitById(list, id);
      if e != NULL {
        j := IndexOf(list.chain, e) - 1;
        PayloadAt(c.heap, list.chain, j);
      } else {
        e, j := FindById(id);
      }
    }

    /** sn_register: sweep, then track `ptr` with size 0 for thread `tid`,
        whatever `ptr` is: NULL and already-tracked addresses are pushed too. */
    method SnRegister(ptr: Ptr, tid: nat, rec: Ptr) returns (r: Ptr)
      requires Valid() && rec != NULL && rec !in list.heap
      modifies list, mm.slots
      ensures Valid() && r == ptr
      ensures list.chain == old(list.chain) + [rec]
      ensures Tracked(list.Blocks()) == Tracked(old(list.Blocks())) + [Block(ptr, 0, tid, false, 0, 0)]
    {
      Sweep();
      Track(ptr, 0, tid, rec);
      return ptr;
    }

    /** sn_query_size: sweep; the size recorded by the first entry tracking
        `ptr`, or 0 with the error set. */
    method SnQuerySize(ptr: Ptr) returns (r: usize)
      requires Valid()
      modifies list`heap, list`lastAccess, mm.slots, this`lastError
      ensures Valid() && Tracked(list.Blocks()) == Tracked(old(list.Blocks()))
      ensures var k := FirstMatch(old(list.Blocks()), 0, DataIs(ptr));
        if ptr == NULL then
          r == 0 && lastError == ErrNullPtr
        else if k.None? then
          r == 0 && lastError == ErrNoAdderFound
        else
          r == old(list.Blocks())[k.value].size && lastError == old(lastError)
    {
      ghost var b0 := list.Blocks();
      Sweep();
      TrackedSearch(b0, list.Blocks(), ptr, 0);
      if ptr == NULL {
        lastError := ErrNullPtr;
        return 0;
      }
      ghost var b1 := list.Blocks();
      var e := Find(ptr);
      if e == NULL {
        lastError := ErrNoAdderFound;
        return 0;
      }
      PayloadAt(list.heap, list.chain, FirstMatch(b1, 0, DataIs(ptr)).value);
      r := list.heap[e].block.size;
    }

    /** sn_query_tid: sweep; the thread of an entry tracking `ptr`, found
        through the cache first (the first such entry when caching is off). */
    method SnQueryTid(ptr: Ptr) returns (r: nat)
      requires Valid()
      modifies list`heap, list`lastAccess, mm.slots, this`lastError
      ensures Valid() && Tracked(list.Blocks()) == Tracked(old(list.Blocks()))
      ensures var bs := old(list.Blocks()); var k := FirstMatch(bs, 0, DataIs(ptr));
        if ptr == NULL then
          r == 0 && lastError == ErrNullPtr
        else if k.None? then
          r == 0 && lastError == ErrNoAdderFound
        else
          lastError == old(lastError) &&
          (exists j :: 0 <= j < |bs| && bs[j].data == ptr && bs[j].tid == r) &&
          (!mm.useCache ==> r == bs[k.value].tid)
    {
      ghost var b0 := list.Blocks();
      Sweep();
      TrackedSearch(b0, list.Blocks(), ptr, 0);
      if ptr == NULL {
        lastError := ErrNullPtr;
        return 0;
      }
      var e;
      ghost var j;
      e, j := Lookup(ptr);
      if e == NULL {
        lastError := ErrNoAdderFound;
        return 0;
      }
      PayloadAt(list.heap, list.chain, j);
      r := list.heap[e].block.tid;
      assert b0[j].data == ptr && b0[j].tid == r;
    }

    /** sn_register_size: sweep; refuse NULL and size 0; an address already
        tracked is left as it is; otherwise track it with `size`. */
    method SnRegisterSize(ptr: Ptr, size: usize, tid: nat, rec: Ptr) returns (r: Ptr)
      requires Valid() && rec != NULL && rec !in list.heap
      modifies list, mm.slots, this`lastError
      ensures Valid()
      ensures var bs := Tracked(old(list.Blocks()));
        if ptr == NULL then
          r == NULL && lastError == ErrNullPtr && Tracked(list.Blocks()) == bs
        else if size == 0 then
          r == NULL && lastError == ErrBadSize && Tracked(list.Blocks()) == bs
        else if FirstMatch(old(list.Blocks()), 0, DataIs(ptr)).Some? then
          r == ptr && lastError == old(lastError) && Tracked(list.Blocks()) == bs
        else
          r == ptr && lastError == old(lastError) && Tracked(list.Blocks()) == bs + [Block(ptr, size, tid, false, 0, 0)]
      ensures r != NULL ==> FirstMatch(list.Blocks(), 0, DataIs(ptr)).Some?
    {
      ghost var b0 := list.Blocks();
      Sweep();
      TrackedSearch(b0, list.Blocks(), ptr, 0);
      if ptr == NULL {
        lastError := ErrNullPtr;
        return NULL;
      }
      if size == 0 {
        lastError := ErrBadSize;
        return NULL;
      }
      TrackOnce(ptr, size, tid, rec);
      return ptr;
    }

    /** The tail of sn_register_size: track `ptr` unless some entry already does. */
    method TrackOnce(ptr: Ptr, size: usize, tid: nat, rec: Ptr)
      requires Valid() && ptr != NULL && rec != NULL && rec !in list.heap
      modifies list
      ensures Valid()
      ensures Tracked(list.Blocks()) == Tracked(old(list.Blocks())) +
        (if FirstMatch(old(list.Blocks()), 0, DataIs(ptr)).Some? then [] else [Block(ptr, size, tid, false, 0, 0)])
      ensures FirstMatch(list.Blocks(), 0, DataIs(ptr)).Some?
    {
      var known := list.HasPtr(ptr);
      if !known {
        ghost var b1 := list.Blocks();
        Track(ptr, size, tid, rec);
        assert list.Blocks()[|b1|].data == ptr;
      } else {
        assert Tracked(old(list.Blocks())) + [] == Tracked(old(list.Blocks()));
      }
    }

    /** sn_is_tracked_block: sweep; whether some entry tracks `ptr`. */
    method SnIsTrackedBlock(ptr: Ptr) returns (b: bool)
      requires Valid()
      modifies list`heap, list`lastAccess, mm.slots, this`lastError
      ensures Valid() && Tracked(list.Blocks()) == Tracked(old(list.Blocks()))
      ensures b <==> ptr != NULL && exists j :: 0 <= j < |old(list.Blocks())| && old(list.Blocks())[j].data == ptr
      ensures lastError == if ptr == NULL then ErrNullPtr else old(lastError)
    {
      ghost var b0 := list.Blocks();
      Sweep();
      TrackedSearch(b0, list.Blocks(), ptr, 0);
      if ptr == NULL {
        lastError := ErrNullPtr;
        return false;
      }
      b := list.HasPtr(ptr);
    }

    /** linked_list_entry_setBlockId on the entry at chain position j + 1. */
    method Tag(e: Ptr, ghost j: nat, id: u16)
      requires Valid() && j + 1 < |list.chain| && list.chain[j + 1] == e
      modifies list`heap
      ensures Valid()
      ensures var ts := Tracked(old(list.Blocks())); Tracked(list.Blocks()) == ts[j := ts[j].(blockId := id)]
    {
      ghost var c := mm.State(list);
      LinkAt(list.heap, list.chain, 0);
      LinkAt(list.heap, list.chain, j + 1);
      LinkedIndexOf(list.heap, list.chain, j + 1);
      PayloadAt(list.heap, list.chain, j);
      var b := list.heap[e].block.(blockId := id);
      list.SetBlock(e, b);
      LiveReblock(c, list.chain, list.head, e, b, c.avail);
      TrackedUpdate(old(list.Blocks()), j, b);
    }

    /** sn_set_block_id: sweep; refuse NULL and the reserved tags; tag the
        entry tracking `block` that the cache, then the registry, finds. */
    method SnSetBlockId(block: Ptr, id: u16)
      requires Valid()
      modifies list`heap, list`lastAccess, mm.slots, this`lastError
      ensures Valid()
      ensures var ts := Tracked(old(list.Blocks()));
        if block == NULL then
          lastError == ErrNullPtr && Tracked(list.Blocks()) == ts
        else if id <= RESERVED_BLOCK_IDS then
          lastError == ErrBadBlockId && Tracked(list.Blocks()) == ts
        else if FirstMatch(old(list.Blocks()), 0, DataIs(block)).None? then
          lastError == ErrNoAdderFound && Tracked(list.Blocks()) == ts
        else
          lastError == old(lastError) &&
          exists j :: 0 <= j < |ts| && ts[j].data == block && Tracked(list.Blocks()) == ts[j := ts[j].(blockId := id)]
    {
      ghost var b0 := list.Blocks();
      Sweep();
      TrackedSearch(b0, list.Blocks(), block, 0);
      if block == NULL {
        lastError := ErrNullPtr;
        return;
      }
      if id <= RESERVED_BLOCK_IDS {
        lastError := ErrBadBlockId;
        return;
      }
      var e;
      ghost var j;
      e, j := Lookup(block);
      if e == NULL {
        lastError := ErrNoAdderFound;
        return;
      }
      Tag(e, j, id);
      assert Tracked(b0)[j].data == block;
    }

    /** sn_get_block_id: sweep; the tag of an entry tracking `block`, found
        through the cache first (the first such entry when caching is off). */
    method SnGetBlockId(block: Ptr) returns (r: u16)
      requires Valid()
      modifies list`heap, list`lastAccess, mm.slots, this`lastError
      ensures Valid() && Tracked(list.Blocks()) == Tracked(old(list.Blocks()))
      ensures var bs := old(list.Blocks()); var k := FirstMatch(bs, 0, DataIs(block));
        if block == NULL then
          r == 0 && lastError == ErrNullPtr
        else if k.None? then
          r == 0 && lastError == ErrNoAdderFound
        else
          lastError == old(lastError) &&
          (exists j :: 0 <= j < |bs| && bs[j].data == block && bs[j].blockId == r) &&
          (!mm.useCache ==> r == bs[k.value].blockId)
    {
      ghost var b0 := list.Blocks();
      Sweep();
      TrackedSearch(b0, list.Blocks(), block, 0);
      if block == NULL {
        lastError := ErrNullPtr;
        return 0;
      }
      var e;
      ghost var j;
      e, j := Lookup(block);
      if e == NULL {
        lastError := ErrNoAdderFound;
        return 0;
      }
      PayloadAt(list.heap, list.chain, j);
      r := list.heap[e].block.blockId;
      assert b0[j].data == block && b0[j].blockId == r;
    }

    /** sn_query_block_id: sweep; refuse tag 0; the address tracked by an
        entry tagged `id`, found through the cache first (the first such
        entry when caching is off). */
    method SnQueryBlockId(id: u16) returns (r: Ptr)
      requires Valid()
      modifies list`heap, list`lastAccess, mm.slots, this`lastError
      ensures Valid() && Tracked(list.Blocks()) == Tracked(old(list.Blocks()))
      ensures var bs := old(list.Blocks()); var k := FirstMatch(bs, 0, IdIs(id));
        if id == 0 then
          r == NULL && lastError == ErrBadBlockId
        else if k.None? then
          r == NULL && lastError == ErrNoAdderFound
        else
          lastError == old(lastError) &&
          (exists j :: 0 <= j < |bs| && bs[j].blockId == id && bs[j].data == r) &&
          (!mm.useCache ==> r == bs[k.value].data)
    {
      ghost var b0 := list.Blocks();
      Sweep();
      TrackedSearch(b0, list.Blocks(), NULL, id);
      if id == 0 {
        lastError := ErrBadBlockId;
        return NULL;
      }
      var e;
      ghost var j;
      e, j := LookupById(id);
      if e == NULL {
        lastError := ErrNoAdderFound;
        return NULL;
      }
      r := list.heap[e].block.data;
      assert b0[j].blockId == id && b0[j].data == r;
    }

    /** sn_set_alloc_limit (no sweep). */
    method SnSetAllocLimit(limit: usize)
      requires Valid()
      modifies mm`allocLimit
      ensures Valid() && mm.AllocLimit() == limit
    {
      mm.SetAllocLimit(limit);
    }

    /** The walk of sn_query_thread_memory_usage over the registry. */
    method ThreadUsage(tid: nat) returns (r: usize)
      requires Valid()
      ensures r == Usage(list.Blocks(), tid) % SIZE_MOD
    {
      var found;
      found, r := list.ForEach(UsageWorker(tid), 0);
      UsageWalk(list.Blocks(), 0, tid, 0);
      assert list.Blocks()[0..] == list.Blocks();
    }

    /** sn_query_thread_memory_usage: sweep; the size_t sum of the sizes of
        the entries of thread `tid`. */
    method SnQueryThreadMemoryUsage(tid: nat) returns (r: usize)
      requires Valid()
      modifies list`heap, mm.slots
      ensures Valid() && Tracked(list.Blocks()) == Tracked(old(list.Blocks()))
      ensures r == Usage(old(list.Blocks()), tid) % SIZE_MOD
    {
      ghost var b0 := list.Blocks();
      Sweep();
      TrackedSearch(b0, list.Blocks(), NULL, 0);
      r := ThreadUsage(tid);
      UsageTracked(b0, list.Blocks(), tid);
    }

    /** sn_query_total_memory_usage (no sweep): the manager's usage figure,
        which nothing updates. */
    method SnQueryTotalMemoryUsage() returns (r: usize)
      requires Valid()
      ensures r == mm.GlobalMemoryUsage() && r == 0
    {
      r := mm.GlobalMemoryUsage();
    }

    /** sn_request_to_fast_cache (no sweep): offer the first entry tracking
        `ptr` to the cache. */
    method SnRequestToFastCache(ptr: Ptr) returns (res: Outcome<bool>)
      requires Valid()
      modifies list`heap, list`lastAccess, mm`available, mm.slots, this`lastError
      ensures Valid() && Tracked(list.Blocks()) == Tracked(old(list.Blocks()))
      ensures var k := FirstMatch(old(list.Blocks()), 0, DataIs(ptr));
        if ptr == NULL || k.None? then
          res == Returned(false) && lastError == (if ptr == NULL then ErrNullPtr else ErrNoAdderFound) &&
          mm.State(list) == old(mm.State(list))
        else
          var e := list.chain[k.value + 1];
          e != NULL && e in old(list.heap) && lastError == old(lastError) &&
          var c := Cache(old(mm.slots[..]), old(list.heap)[e := Bumped(old(list.heap)[e])], old(mm.available));
          Resolved(c) &&
          var t := TryPut(c, mm.cacheLock, mm.useCache, e);
          res == (if t.Crashed? then Crashed(t.fault) else Returned(t.value.0)) &&
          (t.Returned? ==> mm.State(list) == t.value.1)
    {
      if ptr == NULL {
        lastError := ErrNullPtr;
        return Returned(false);
      }
      var e := Find(ptr);
      if e == NULL {
        lastError := ErrNoAdderFound;
        return Returned(false);
      }
      assert mm.State(list) == Cache(old(mm.slots[..]), old(list.heap)[e := Bumped(old(list.heap)[e])], old(mm.available));
      res := Offer(e);
    }

    /** memman_tryCachePut on the global state, for a live entry. */
    method Offer(e: Ptr) returns (res: Outcome<bool>)
      requires Valid() && e in list.chain && e != list.head
      modifies list`heap, mm`available, mm.slots
      ensures Valid() && Tracked(list.Blocks()) == Tracked(old(list.Blocks()))
      ensures e != NULL && e in old(list.heap) && Resolved(old(mm.State(list)))
      ensures var t := TryPut(old(mm.State(list)), mm.cacheLock, mm.useCache, e);
        res == (if t.Crashed? then Crashed(t.fault) else Returned(t.value.0)) &&
        (t.Returned? ==> mm.State(list) == t.value.1)
    {
      ghost var c1 := mm.State(list);
      res := mm.TryCachePut(list, e);
      PutRetags(c1, mm.cacheLock, mm.useCache, e);
      RetaggedPayloads(c1.heap, list.heap, list.chain);
    }

    /** sn_lock_fast_cache: puts are refused until unlocked. */
    method SnLockFastCache()
      requires Valid()
      modifies mm`cacheLock
      ensures Valid() && mm.cacheLock
    {
      mm.cacheLock := true;
    }

    /** sn_unlock_fast_cache. */
    method SnUnlockFastCache()
      requires Valid()
      modifies mm`cacheLock
      ensures Valid() && !mm.cacheLock
    {
      mm.cacheLock := false;
    }

    /** sn_do_fast_caching: switch lookups and puts through the cache on or off. */
    method SnDoFastCaching(val: bool)
      requires Valid()
      modifies mm`useCache
      ensures Valid() && mm.useCache == val
    {
      mm.useCache := val;
    }

    /** sn_fast_cache_clear: memman_cacheClear, as written. */
    method SnFastCacheClear()
      requires Valid()
      modifies list`heap, mm`available, mm.slots
      ensures Valid() && Tracked(list.Blocks()) == Tracked(old(list.Blocks()))
      ensures mm.State(list) == EvictFrom(old(mm.State(list)), None, true, 0)
      ensures forall j :: 0 <= j < MAX_CACHE_SLOTS ==> mm.slots[j].key == NULL
    {
      ghost var c := mm.State(list);
      mm.CacheClear(list);
      EvictRetags(c, None, true, 0);
      RetaggedPayloads(c.heap, list.heap, list.chain);
    }

    /** sn_malloc (no sweep): refuse size 0; `pr` is what malloc returned;
        track it with its size for thread `tid`. */
    method SnMalloc(size: usize, pr: Ptr, tid: nat, rec: Ptr) returns (r: Ptr)
      requires Valid() && rec != NULL && rec !in list.heap
      modifies list, this`lastError
      ensures Valid()
      ensures
        if size == 0 || pr == NULL then
          r == NULL && lastError == (if size == 0 then ErrBadSize else ErrBadAlloc) &&
          list.chain == old(list.chain) && list.Blocks() == old(list.Blocks())
        else
          r == pr && lastError == old(lastError) && list.chain == old(list.chain) + [rec] &&
          list.Blocks() == old(list.Blocks()) + [Block(pr, size, tid, false, 0, 0)]
    {
      if size == 0 {
        lastError := ErrBadSize;
        return NULL;
      }
      if pr == NULL {
        lastError := ErrBadAlloc;
        return NULL;
      }
      Track(pr, size, tid, rec);
      return pr;
    }

    /** sn_free as written (no sweep): the first entry tracking `ptr` is
        destroyed but never unlinked, nor evicted from the cache. Its
        predecessor keeps pointing at the destroyed record, so the registry
        is no longer a list and every later walk reads freed memory; the
        lookup also left `lastAccess` on the destroyed record. */
    method SnFree(ptr: Ptr)
      requires Valid()
      modifies list`heap, list`lastAccess, this`lastError
      ensures var k := FirstMatch(old(list.Blocks()), 0, DataIs(ptr));
        if ptr == NULL || k.None? then
          Valid() && list.heap == old(list.heap) && list.lastAccess == old(list.lastAccess) &&
          lastError == (if ptr == NULL then ErrNullPtr else ErrNoAdderFound)
        else
          var e := list.chain[k.value + 1]; var pre := list.chain[k.value];
          lastError == old(lastError) && e !in list.heap &&
          list.heap == old(list.heap) - {e} && list.lastAccess == e &&
          pre in list.heap && list.heap[pre].next == e && !list.Valid()
    {
      if ptr == NULL {
        lastError := ErrNullPtr;
        return;
      }
      var e := Find(ptr);
      if e == NULL {
        lastError := ErrNoAdderFound;
        return;
      }
      DestroyLeavesDangling(list.heap, list.chain, FirstMatch(old(list.Blocks()), 0, DataIs(ptr)).value + 1);
      list.heap := list.heap - {e};
    }

    /** memman_cacheInvalidate on `ptr`, tracked at chain position k + 1 by
        `e`: afterwards no slot names `e`. */
    method Evict(ptr: Ptr, e: Ptr, ghost k: nat)
      requires Valid() && ptr != NULL && e != NULL && k + 1 < |list.chain| && list.chain[k + 1] == e
      requires list.heap[e].block.data == ptr
      modifies list`heap, mm`available, mm.slots
      ensures Valid() && Tracked(list.Blocks()) == Tracked(old(list.Blocks()))
      ensures FirstKey(mm.slots[..], ptr, 0).None?
      ensures forall i :: 0 <= i < MAX_CACHE_SLOTS ==> mm.slots[i].value != e
      ensures CountCoherent(old(mm.State(list))) ==> CountCoherent(mm.State(list))
    {
      ghost var c := mm.State(list);
      mm.CacheInvalidate(list, ptr);
      EvictRetags(c, Some(ptr), false, 0);
      RetaggedPayloads(c.heap, list.heap, list.chain);
      UnnamedAfterEvict(mm.State(list), ptr, e);
    }

    /** linked_list_removeEntry, with the count kept, on the entry at chain
        position k + 1, which no slot names. */
    method Unregister(e: Ptr, ghost k: nat)
      requires Valid() && k + 1 < |list.chain| && list.chain[k + 1] == e
      requires forall i :: 0 <= i < MAX_CACHE_SLOTS ==> mm.slots[i].value != e
      modifies list
      ensures Valid()
      ensures list.chain == RemoveAt(old(list.chain), k + 1) && list.Blocks() == RemoveAt(old(list.Blocks()), k)
      ensures old(list.Exact()) ==> list.Exact()
    {
      LinkAt(list.heap, list.chain, 0);
      LinkAt(list.heap, list.chain, k + 1);
      LinkedIndexOf(list.heap, list.chain, k + 1);
      ghost var c := mm.State(list);
      ghost var chain := list.chain;
      var ok := list.RemoveEntryCounted(e);
      LiveRemove(c, list.heap, chain, k + 1);
    }

    /** The free the library evidently intends: evict `ptr` from the cache,
        then unlink and destroy its first entry through the counted removal. */
    method SnFreeFixed(ptr: Ptr)
      requires Valid()
      modifies list, mm`available, mm.slots, this`lastError
      ensures Valid()
      ensures var ts := Tracked(old(list.Blocks())); var k := FirstMatch(old(list.Blocks()), 0, DataIs(ptr));
        if ptr == NULL || k.None? then
          lastError == (if ptr == NULL then ErrNullPtr else ErrNoAdderFound) &&
          list.chain == old(list.chain) && Tracked(list.Blocks()) == ts
        else
          lastError == old(lastError) &&
          list.chain == RemoveAt(old(list.chain), k.value + 1) &&
          Tracked(list.Blocks()) == RemoveAt(ts, k.value) &&
          FirstKey(mm.slots[..], ptr, 0).None?
      ensures old(list.Exact()) ==> list.Exact()
      ensures CountCoherent(old(mm.State(list))) ==> CountCoherent(mm.State(list))
    {
      if ptr == NULL {
        lastError := ErrNullPtr;
        return;
      }
      ghost var b0 := list.Blocks();
      var e := Find(ptr);
      if e == NULL {
        lastError := ErrNoAdderFound;
        return;
      }
      ghost var k := FirstMatch(b0, 0, DataIs(ptr)).value;
      PayloadAt(list.heap, list.chain, k);
      Discard(ptr, e, k);
    }

    /** The tail of the intended free: evict `ptr`, then unlink its entry
        `e`, at chain position k + 1. */
    method Discard(ptr: Ptr, e: Ptr, ghost k: nat)
      requires Valid() && ptr != NULL && e != NULL && k + 1 < |list.chain| && list.chain[k + 1] == e
      requires list.heap[e].block.data == ptr
      modifies list, mm`available, mm.slots
      ensures Valid()
      ensures list.chain == RemoveAt(old(list.chain), k + 1)
      ensures Tracked(list.Blocks()) == RemoveAt(Tracked(old(list.Blocks())), k)
      ensures FirstKey(mm.slots[..], ptr, 0).None?
      ensures old(list.Exact()) ==> list.Exact()
      ensures CountCoherent(old(mm.State(list))) ==> CountCoherent(mm.State(list))
    {
      Evict(ptr, e, k);
      ghost var b2 := list.Blocks();
      Unregister(e, k);
      TrackedRemoveAt(b2, k);
    }
  }
}
