/** The allocation manager: a fast cache of MAX_CACHE_SLOTS registry entries
    keyed by the address each tracks, plus the allocation limit and the usage
    counter it is compared with. The cache flags the registry entries it holds
    (`cached`) and ranks candidates by their 8-bit `weight`. */
module AllocManager {
  import opened Common
  import opened Registry

  /** MEMMAN_MAX_CACHE_SLOTS. */
  const MAX_CACHE_SLOTS: nat := 5
  /** MEMMAN_NO_ALLOC_LIMIT: a limit of 0 means "no limit". */
  const NO_ALLOC_LIMIT: usize := 0
  /** The weight at or under which memman_work considers an entry, and under
      which it evicts a cached one. */
  const WEIGHT_CUTOFF: u8 := 10

  /** cache_pair_t: the tracked address and the registry entry holding it. */
  datatype Slot = Slot(key: Ptr, value: Ptr)
  const EMPTY_SLOT: Slot := Slot(NULL, NULL)

  /** The cache as its operations see it: the slot table, the registry arena
      whose entries the slots name, and available_cache_slots. */
  datatype Cache = Cache(slots: seq<Slot>, heap: map<Ptr, Entry>, avail: u8)

  /** Every occupied slot names a record of the arena and is keyed by that
      record's address; an unoccupied slot has no key. */
  ghost predicate Resolved(c: Cache)
  {
    forall i :: 0 <= i < |c.slots| ==>
      (c.slots[i].value == NULL ==> c.slots[i].key == NULL) &&
      (c.slots[i].value != NULL ==> c.slots[i].value in c.heap && c.heap[c.slots[i].value].block.data == c.slots[i].key)
  }

  /** Resolved, and every occupied slot names a live entry of the registry
      (never its sentinel). */
  ghost predicate Live(c: Cache, chain: seq<Ptr>, head: Ptr)
  {
    Resolved(c) &&
    forall i :: 0 <= i < |c.slots| && c.slots[i].value != NULL ==> c.slots[i].value in chain && c.slots[i].value != head
  }

  /** A slot is free, for put, invalidate and clear alike, when its key is NULL. */
  function FreeCount(s: seq<Slot>): (n: nat)
    ensures n <= |s|
  {
    if s == [] then 0 else (if s[0].key == NULL then 1 else 0) + FreeCount(s[1..])
  }

  /** The count invariant: available_cache_slots is the number of free slots
      of a five-slot table. */
  ghost predicate CountCoherent(c: Cache)
  {
    |c.slots| == MAX_CACHE_SLOTS && c.avail as int == FreeCount(c.slots)
  }

  /** Some keyed slot holds the record `p`. */
  ghost predicate Holds(s: seq<Slot>, p: Ptr)
  {
    exists i :: 0 <= i < |s| && s[i].key != NULL && s[i].value == p
  }

  /** The flag invariant: a record is flagged `cached` exactly when a keyed
      slot holds it. */
  ghost predicate CachedCoherent(c: Cache)
  {
    forall p :: p in c.heap ==> (c.heap[p].block.cached <==> Holds(c.slots, p))
  }

  /** The arena after `value->cached = flag`. */
  function Flag(heap: map<Ptr, Entry>, r: Ptr, flag: bool): (h: map<Ptr, Entry>)
    requires r in heap
    ensures h.Keys == heap.Keys && h[r].block.cached == flag
  {
    heap[r := heap[r].(block := heap[r].block.(cached := flag))]
  }

  lemma {:induction false} FreeCountUpdate(s: seq<Slot>, i: nat, x: Slot)
    requires i < |s|
    ensures FreeCount(s[i := x]) as int ==
      FreeCount(s) - (if s[i].key == NULL then 1 else 0) + (if x.key == NULL then 1 else 0)
  {
    if i > 0 {
      FreeCountUpdate(s[1..], i - 1, x);
      assert s[i := x][1..] == s[1..][i - 1 := x];
    }
  }

  /** A positive free count means a free slot exists, and conversely. */
  lemma {:induction false} FreeCountPositive(s: seq<Slot>)
    ensures FreeCount(s) > 0 <==> exists i :: 0 <= i < |s| && s[i].key == NULL
  {
    if s != [] {
      FreeCountPositive(s[1..]);
      if s[0].key != NULL && FreeCount(s) > 0 {
        var i :| 0 <= i < |s[1..]| && s[1..][i].key == NULL;
        assert s[i + 1].key == NULL;
      }
      if FreeCount(s) == 0 {
        forall i | 0 <= i < |s| ensures s[i].key != NULL {
          if i > 0 {
            assert s[i] == s[1..][i - 1];
          }
        }
      }
    }
  }

  // ---------------------------------------------------------------- lookups

  /** memman_TryCacheHit's scan: the first keyed slot at or after `i` whose
      key is `key`. A NULL key never matches. */
  function FirstKey(s: seq<Slot>, key: Ptr, i: nat): (r: Option<nat>)
    decreases |s| - i
    ensures r.Some? ==> i <= r.value < |s| && key != NULL && s[r.value].key == key
    ensures r.Some? ==> forall j :: i <= j < r.value ==> s[j].key != key
    ensures r.None? ==> key == NULL || forall j :: i <= j < |s| ==> s[j].key != key
  {
    if i >= |s| then None
    else if s[i].key != NULL && s[i].key == key then Some(i)
    else FirstKey(s, key, i + 1)
  }

  /** memman_TryCacheHitById's scan: the first occupied slot at or after `i`
      whose record carries block id `id`. */
  function FirstWithId(c: Cache, id: u16, i: nat): (r: Option<nat>)
    requires Resolved(c)
    decreases |c.slots| - i
    ensures r.Some? ==>
      i <= r.value < |c.slots| && c.slots[r.value].value != NULL && c.heap[c.slots[r.value].value].block.blockId == id
    ensures forall j :: i <= j < (if r.Some? then r.value else |c.slots|) && c.slots[j].value != NULL ==>
      c.heap[c.slots[j].value].block.blockId != id
  {
    if i >= |c.slots| then None
    else if c.slots[i].value != NULL && c.heap[c.slots[i].value].block.blockId == id then Some(i)
    else FirstWithId(c, id, i + 1)
  }

  /** memman_tryCachePut's scan: the first free slot at or after `i`. */
  function FirstFree(s: seq<Slot>, i: nat): (r: Option<nat>)
    decreases |s| - i
    ensures r.Some? ==> i <= r.value < |s| && s[r.value].key == NULL
    ensures r.Some? ==> forall j :: i <= j < r.value ==> s[j].key != NULL
    ensures r.None? ==> forall j :: i <= j < |s| ==> s[j].key != NULL
  {
    if i >= |s| then None
    else if s[i].key == NULL then Some(i)
    else FirstFree(s, i + 1)
  }

  // -------------------------------------------------------------- eviction

  /** The slots an eviction sweep empties: memman_cacheClear (`target` None)
      empties every keyed slot, memman_cacheInvalidate every slot keyed by
      the target address. */
  predicate Selects(target: Option<Ptr>, s: Slot)
  {
    s.key != NULL && (target.None? || s.key == target.value)
  }

  /** One step of the eviction loop: a selected slot `i` has its record
      flagged `mark`, the free count incremented (as a uint8_t), and is
      zeroed; any other slot is skipped. */
  function EvictAt(c: Cache, target: Option<Ptr>, mark: bool, i: nat): (r: Cache)
    requires Resolved(c) && i < |c.slots|
    ensures |r.slots| == |c.slots| && r.heap.Keys == c.heap.Keys && Resolved(r)
  {
    if Selects(target, c.slots[i]) then
      Cache(c.slots[i := EMPTY_SLOT], Flag(c.heap, c.slots[i].value, mark), WrapInc8(c.avail))
    else c
  }

  /** The eviction loop from slot `i` on. */
  function EvictFrom(c: Cache, target: Option<Ptr>, mark: bool, i: nat): (r: Cache)
    requires Resolved(c)
    ensures |r.slots| == |c.slots| && r.heap.Keys == c.heap.Keys && Resolved(r)
    decreases |c.slots| - i
  {
    if i >= |c.slots| then c else EvictFrom(EvictAt(c, target, mark, i), target, mark, i + 1)
  }

  /** The number of slots of `s` an eviction selects. */
  function Selected(s: seq<Slot>, target: Option<Ptr>): (n: nat)
    ensures n <= |s|
  {
    if s == [] then 0 else (if Selects(target, s[0]) then 1 else 0) + Selected(s[1..], target)
  }

  /** A selected slot at or after `i` holds `p`. */
  ghost predicate Evicts(s: seq<Slot>, target: Option<Ptr>, p: Ptr, i: nat)
  {
    exists j :: i <= j < |s| && Selects(target, s[j]) && s[j].value == p
  }

  /** Eviction empties exactly the selected slots at or after `i`. */
  lemma {:induction false} EvictSlots(c: Cache, target: Option<Ptr>, mark: bool, i: nat)
    requires Resolved(c)
    ensures var r := EvictFrom(c, target, mark, i);
      forall j :: 0 <= j < |c.slots| ==>
        r.slots[j] == if i <= j && Selects(target, c.slots[j]) then EMPTY_SLOT else c.slots[j]
    decreases |c.slots| - i
  {
    if i < |c.slots| {
      EvictSlots(EvictAt(c, target, mark, i), target, mark, i + 1);
    }
  }

  /** Stepping past slot `i`, which does not evict `p`, changes nothing about
      whether a later slot does. */
  lemma EvictsStep(s: seq<Slot>, s': seq<Slot>, target: Option<Ptr>, p: Ptr, i: nat)
    requires i < |s| == |s'| && forall j :: i < j < |s| ==> s'[j] == s[j]
    requires !(Selects(target, s[i]) && s[i].value == p)
    ensures Evicts(s', target, p, i + 1) <==> Evicts(s, target, p, i)
  {
    if Evicts(s, target, p, i) {
      var j :| i <= j < |s| && Selects(target, s[j]) && s[j].value == p;
      assert s'[j] == s[j];
    }
    if Evicts(s', target, p, i + 1) {
      var j :| i + 1 <= j < |s'| && Selects(target, s'[j]) && s'[j].value == p;
      assert s'[j] == s[j];
    }
  }

  /** Eviction flags `mark` on exactly the records a selected slot holds and
      leaves every other record as it was. */
  lemma {:induction false} EvictHeap(c: Cache, target: Option<Ptr>, mark: bool, i: nat)
    requires Resolved(c)
    ensures var r := EvictFrom(c, target, mark, i);
      forall p :: p in c.heap ==>
        r.heap[p] == if Evicts(c.slots, target, p, i) then c.heap[p].(block := c.heap[p].block.(cached := mark)) else c.heap[p]
    decreases |c.slots| - i
  {
    if i < |c.slots| {
      var c' := EvictAt(c, target, mark, i);
      EvictHeap(c', target, mark, i + 1);
      if Selects(target, c.slots[i]) {
        var v := c.slots[i].value;
        forall p | p in c.heap && p != v
          ensures Evicts(c'.slots, target, p, i + 1) <==> Evicts(c.slots, target, p, i)
        {
          EvictsStep(c.slots, c'.slots, target, p, i);
        }
        assert Evicts(c.slots, target, v, i) by {
          assert Selects(target, c.slots[i]) && c.slots[i].value == v;
        }
      } else {
        forall p | p in c.heap
          ensures Evicts(c.slots, target, p, i + 1) <==> Evicts(c.slots, target, p, i)
        {
          EvictsStep(c.slots, c.slots, target, p, i);
        }
      }
    }
  }

  /** Eviction frees exactly the selected slots at or after `i`. */
  lemma {:induction false} EvictFree(c: Cache, target: Option<Ptr>, mark: bool, i: nat)
    requires Resolved(c) && i <= |c.slots|
    ensures FreeCount(EvictFrom(c, target, mark, i).slots) == FreeCount(c.slots) + Selected(c.slots[i..], target)
    decreases |c.slots| - i
  {
    if i < |c.slots| {
      assert c.slots[i..][1..] == c.slots[i + 1..];
      var c' := EvictAt(c, target, mark, i);
      EvictFree(c', target, mark, i + 1);
      if Selects(target, c.slots[i]) {
        FreeCountUpdate(c.slots, i, EMPTY_SLOT);
        assert c'.slots[i + 1..] == c.slots[i + 1..];
      }
    }
  }

  /** Incrementing a uint8_t with wrap-around and then adding `n` modulo 256
      is adding n + 1 modulo 256. */
  lemma WrapThenAdd(a: u8, n: nat)
    ensures (WrapInc8(a) as int + n) % 0x100 == (a as int + 1 + n) % 0x100
  {
    if a == 255 {
      assert (a as int + 1 + n) == 0x100 + n;
    }
  }

  /** Eviction raises the wrapping counter once per selected slot at or
      after `i`. */
  lemma {:induction false} EvictAvail(c: Cache, target: Option<Ptr>, mark: bool, i: nat)
    requires Resolved(c) && i <= |c.slots|
    ensures EvictFrom(c, target, mark, i).avail as int == (c.avail as int + Selected(c.slots[i..], target)) % 0x100
    decreases |c.slots| - i
  {
    if i < |c.slots| {
      assert c.slots[i..][1..] == c.slots[i + 1..];
      var c' := EvictAt(c, target, mark, i);
      EvictAvail(c', target, mark, i + 1);
      if Selects(target, c.slots[i]) {
        assert c'.slots[i + 1..] == c.slots[i + 1..];
        WrapThenAdd(c.avail, Selected(c.slots[i + 1..], target));
      }
    }
  }

  /** Both eviction sweeps keep available_cache_slots equal to the number of
      free slots. */
  lemma EvictKeepsCount(c: Cache, target: Option<Ptr>, mark: bool)
    requires Resolved(c) && CountCoherent(c)
    ensures CountCoherent(EvictFrom(c, target, mark, 0))
  {
    EvictFree(c, target, mark, 0);
    EvictAvail(c, target, mark, 0);
  }

  /** After an eviction whose keyed slots holding `p` all share one key, a
      keyed slot holds `p` exactly when one did before and none of them was
      evicted. */
  lemma HoldsAfterEvict(s: seq<Slot>, r: seq<Slot>, target: Option<Ptr>, p: Ptr, key: Ptr)
    requires |r| == |s| && forall j :: 0 <= j < |s| ==> r[j] == if Selects(target, s[j]) then EMPTY_SLOT else s[j]
    requires forall j :: 0 <= j < |s| && s[j].value == p && s[j].key != NULL ==> s[j].key == key
    ensures Holds(r, p) <==> Holds(s, p) && !Evicts(s, target, p, 0)
  {
    if Holds(r, p) {
      var j :| 0 <= j < |r| && r[j].key != NULL && r[j].value == p;
      assert r[j] == s[j] && !Selects(target, s[j]);
      forall j0 | 0 <= j0 < |s| && s[j0].value == p
        ensures !Selects(target, s[j0])
      {
        if s[j0].key != NULL {
          assert s[j0].key == s[j].key;
        }
      }
    }
    if Holds(s, p) && !Evicts(s, target, p, 0) {
      var j :| 0 <= j < |s| && s[j].key != NULL && s[j].value == p;
      assert r[j] == s[j];
    }
  }

  /** An eviction that clears the flag keeps "flagged iff held by a keyed
      slot": a record's slots all share its address as key, so they are
      evicted together or not at all. */
  lemma EvictKeepsCached(c: Cache, target: Option<Ptr>)
    requires Resolved(c) && CachedCoherent(c)
    ensures CachedCoherent(EvictFrom(c, target, false, 0))
  {
    var r := EvictFrom(c, target, false, 0);
    EvictSlots(c, target, false, 0);
    EvictHeap(c, target, false, 0);
    forall p | p in r.heap
      ensures r.heap[p].block.cached <==> Holds(r.slots, p)
    {
      HoldsAfterEvict(c.slots, r.slots, target, p, c.heap[p].block.data);
    }
  }

  /** After memman_cacheInvalidate(key), no slot is keyed by `key`; every
      other slot is as it was. */
  lemma InvalidateRemovesKey(c: Cache, key: Ptr)
    requires Resolved(c) && key != NULL
    ensures var r := EvictFrom(c, Some(key), false, 0);
      FirstKey(r.slots, key, 0).None? &&
      forall j :: 0 <= j < |c.slots| && c.slots[j].key != key ==> r.slots[j] == c.slots[j]
  {
    EvictSlots(c, Some(key), false, 0);
  }

  /** After memman_cacheClear every slot is free. */
  lemma ClearEmpties(c: Cache, mark: bool)
    requires Resolved(c)
    ensures var r := EvictFrom(c, None, mark, 0);
      forall j :: 0 <= j < |r.slots| ==> r.slots[j].key == NULL
  {
    EvictSlots(c, None, mark, 0);
  }

  /** memman_cacheClear as written flags the records it evicts as cached: one
      cached record, coherent before, is flagged cached afterwards though no
      slot holds it. */
  lemma ClearMarksEvictedCached()
    ensures var c := Cache([Slot(7, 3), EMPTY_SLOT, EMPTY_SLOT, EMPTY_SLOT, EMPTY_SLOT],
                           map[3 := Entry(NULL, Block(7, 16, 1, true, 0, 0), false, NULL)], 4);
      var r := EvictFrom(c, None, true, 0);
      Resolved(c) && CachedCoherent(c) &&
      3 in r.heap && r.heap[3].block.cached && !Holds(r.slots, 3) && !CachedCoherent(r)
  {
    var c := Cache([Slot(7, 3), EMPTY_SLOT, EMPTY_SLOT, EMPTY_SLOT, EMPTY_SLOT],
                   map[3 := Entry(NULL, Block(7, 16, 1, true, 0, 0), false, NULL)], 4);
    assert Holds(c.slots, 3) by { assert c.slots[0].key != NULL && c.slots[0].value == 3; }
    assert CachedCoherent(c);
    var r := EvictFrom(c, None, true, 0);
    EvictSlots(c, None, true, 0);
    EvictHeap(c, None, true, 0);
    assert Evicts(c.slots, None, 3, 0) by { assert Selects(None, c.slots[0]); }
  }

  // ------------------------------------------------------------------- put

  /** memman_tryCachePut: nothing when the cache is locked, disabled or
      counted full; otherwise the first free slot takes the entry and its
      address, the entry is flagged cached and the count drops; no free slot
      although the count is positive is sn_crash(SN_ERR_SYS_FAIL). */
  function TryPut(c: Cache, locked: bool, enabled: bool, entry: Ptr): (r: Outcome<(bool, Cache)>)
    requires Resolved(c) && entry != NULL && entry in c.heap
    ensures r.Returned? ==> Resolved(r.value.1) && r.value.1.heap.Keys == c.heap.Keys
    ensures r.Returned? && r.value.0 ==> r.value.1.heap[entry].block.cached && FirstFree(c.slots, 0).Some?
    ensures r.Returned? && !r.value.0 ==> r.value.1 == c
  {
    if locked || !enabled || c.avail == 0 then Returned((false, c))
    else match FirstFree(c.slots, 0)
      case None => Crashed(SysFail)
      case Some(j) =>
        Returned((true, Cache(c.slots[j := Slot(c.heap[entry].block.data, entry)], Flag(c.heap, entry, true), c.avail - 1)))
  }

  /** With the count invariant, put never crashes. */
  lemma PutNeverCrashes(c: Cache, locked: bool, enabled: bool, entry: Ptr)
    requires Resolved(c) && entry != NULL && entry in c.heap && CountCoherent(c)
    ensures TryPut(c, locked, enabled, entry).Returned?
  {
    FreeCountPositive(c.slots);
  }

  /** A put changes no tracked field of any record. */
  lemma PutRetags(c: Cache, locked: bool, enabled: bool, entry: Ptr)
    requires Resolved(c) && entry != NULL && entry in c.heap
    ensures var t := TryPut(c, locked, enabled, entry); t.Returned? ==> Retagged(c.heap, t.value.1.heap)
  {
  }

  /** A put of an entry tracking a non-NULL address keeps both invariants. */
  lemma PutKeepsCoherent(c: Cache, locked: bool, enabled: bool, entry: Ptr)
    requires Resolved(c) && entry != NULL && entry in c.heap && c.heap[entry].block.data != NULL
    requires TryPut(c, locked, enabled, entry).Returned?
    ensures var r := TryPut(c, locked, enabled, entry).value.1;
      (CountCoherent(c) ==> CountCoherent(r)) && (CachedCoherent(c) ==> CachedCoherent(r))
  {
    var t := TryPut(c, locked, enabled, entry);
    if t.value.0 {
      var j := FirstFree(c.slots, 0).value;
      var r := t.value.1;
      FreeCountUpdate(c.slots, j, Slot(c.heap[entry].block.data, entry));
      if CachedCoherent(c) {
        forall p | p in r.heap
          ensures r.heap[p].block.cached <==> Holds(r.slots, p)
        {
          if p == entry {
            assert r.slots[j].key != NULL && r.slots[j].value == p;
          } else {
            if Holds(c.slots, p) {
              var k :| 0 <= k < |c.slots| && c.slots[k].key != NULL && c.slots[k].value == p;
              assert r.slots[k] == c.slots[k];
            }
            if Holds(r.slots, p) {
              var k :| 0 <= k < |r.slots| && r.slots[k].key != NULL && r.slots[k].value == p;
              assert r.slots[k] == c.slots[k];
            }
          }
        }
      }
    }
  }

  /** Put then hit: after a successful put, a lookup of the entry's address
      finds a slot holding a record that tracks that address. */
  lemma PutThenHit(c: Cache, locked: bool, enabled: bool, entry: Ptr)
    requires Resolved(c) && entry != NULL && entry in c.heap && c.heap[entry].block.data != NULL
    requires TryPut(c, locked, enabled, entry).Returned? && TryPut(c, locked, enabled, entry).value.0
    ensures var r := TryPut(c, locked, enabled, entry).value.1;
      var k := FirstKey(r.slots, c.heap[entry].block.data, 0);
      k.Some? && r.slots[k.value].value != NULL && r.heap[r.slots[k.value].value].block.data == c.heap[entry].block.data
  {
    var r := TryPut(c, locked, enabled, entry).value.1;
    var j := FirstFree(c.slots, 0).value;
    assert r.slots[j].key == c.heap[entry].block.data;
  }

  // ---------------------------------------------------------- the sweep

  /** The slot loop of memman_CacheAlgorithmWorker from slot `i` on: the
      first slot that is unoccupied, or whose record weighs under the
      cutoff, takes `ctx` and its address and flags it cached. `fixed` also
      decrements the free count when the slot taken was unoccupied. */
  function PlaceFrom(c: Cache, ctx: Ptr, fixed: bool, i: nat): (r: Cache)
    requires Resolved(c) && ctx != NULL && ctx in c.heap
    ensures |r.slots| == |c.slots| && r.heap.Keys == c.heap.Keys && Resolved(r)
    decreases |c.slots| - i
  {
    if i >= |c.slots| then c
    else if c.slots[i].value == NULL then
      Cache(c.slots[i := Slot(c.heap[ctx].block.data, ctx)], Flag(c.heap, ctx, true),
            if fixed && c.avail > 0 then c.avail - 1 else c.avail)
    else if c.heap[c.slots[i].value].block.weight < WEIGHT_CUTOFF then
      Cache(c.slots[i := Slot(c.heap[ctx].block.data, ctx)], Flag(c.heap, ctx, true), c.avail)
    else PlaceFrom(c, ctx, fixed, i + 1)
  }

  /** memman_CacheAlgorithmWorker on the entry `ctx`: an entry weighing at
      most the cutoff has its weight reset and is flagged cached, then
      offered to the slots. */
  function WorkEntry(c: Cache, ctx: Ptr, fixed: bool): (r: Cache)
    requires Resolved(c) && ctx != NULL && ctx in c.heap
    ensures |r.slots| == |c.slots| && r.heap.Keys == c.heap.Keys && Resolved(r)
  {
    var b := c.heap[ctx].block;
    if b.weight <= WEIGHT_CUTOFF then
      PlaceFrom(Cache(c.slots, c.heap[ctx := c.heap[ctx].(block := b.(weight := 0, cached := true))], c.avail), ctx, fixed, 0)
    else c
  }

  /** memman_work: the worker applied to the entries ptrs[i..] in order. */
  function SweepFrom(c: Cache, ptrs: seq<Ptr>, fixed: bool, i: nat): (r: Cache)
    requires Resolved(c) && forall p :: p in ptrs ==> p != NULL && p in c.heap
    ensures |r.slots| == |c.slots| && r.heap.Keys == c.heap.Keys && Resolved(r)
    decreases |ptrs| - i
  {
    if i >= |ptrs| then c
    else
      assert ptrs[i] in ptrs;
      SweepFrom(WorkEntry(c, ptrs[i], fixed), ptrs, fixed, i + 1)
  }

  /** Every occupied slot is keyed, so "unoccupied" and "free" coincide. */
  ghost predicate Dense(c: Cache)
  {
    forall i :: 0 <= i < |c.slots| && c.slots[i].value != NULL ==> c.slots[i].key != NULL
  }

  lemma {:induction false} PlaceFixedKeepsCount(c: Cache, ctx: Ptr, i: nat)
    requires Resolved(c) && Dense(c) && CountCoherent(c) && ctx != NULL && ctx in c.heap && c.heap[ctx].block.data != NULL
    ensures var r := PlaceFrom(c, ctx, true, i); Dense(r) && CountCoherent(r)
    decreases |c.slots| - i
  {
    if i < |c.slots| {
      var x := Slot(c.heap[ctx].block.data, ctx);
      if c.slots[i].value == NULL {
        FreeCountUpdate(c.slots, i, x);
      } else if c.heap[c.slots[i].value].block.weight < WEIGHT_CUTOFF {
        FreeCountUpdate(c.slots, i, x);
      } else {
        PlaceFixedKeepsCount(c, ctx, i + 1);
      }
    }
  }

  /** The corrected sweep keeps available_cache_slots equal to the number of
      free slots, provided every entry it visits tracks a non-NULL address. */
  lemma {:induction false} SweepFixedKeepsCount(c: Cache, ptrs: seq<Ptr>, i: nat)
    requires Resolved(c) && Dense(c) && CountCoherent(c)
    requires forall p :: p in ptrs ==> p != NULL && p in c.heap && c.heap[p].block.data != NULL
    ensures var r := SweepFrom(c, ptrs, true, i); Dense(r) && CountCoherent(r)
    decreases |ptrs| - i
  {
    if i < |ptrs| {
      var ctx := ptrs[i];
      var b := c.heap[ctx].block;
      if b.weight <= WEIGHT_CUTOFF {
        var c1 := Cache(c.slots, c.heap[ctx := c.heap[ctx].(block := b.(weight := 0, cached := true))], c.avail);
        PlaceFixedKeepsCount(c1, ctx, 0);
      }
      var c' := WorkEntry(c, ctx, true);
      assert forall p :: p in c.heap ==> c'.heap[p].block.data == c.heap[p].block.data by {
        WorkEntryRetags(c, ctx, true);
      }
      SweepFixedKeepsCount(c', ptrs, i + 1);
    }
  }

  /** A payload with its cache bookkeeping (the cached flag and the weight) cleared. */
  function Untagged(b: Block): Block
  {
    b.(cached := false, weight := 0)
  }

  /** What the registry tracks: its payloads without their cache bookkeeping. */
  function Tracked(bs: seq<Block>): (ts: seq<Block>)
    ensures |ts| == |bs| && forall j :: 0 <= j < |bs| ==> ts[j] == Untagged(bs[j])
  {
    seq(|bs|, j requires 0 <= j < |bs| => Untagged(bs[j]))
  }

  /** Dropping position k commutes with forgetting the cache bookkeeping. */
  lemma TrackedRemoveAt(bs: seq<Block>, k: nat)
    requires k < |bs|
    ensures Tracked(RemoveAt(bs, k)) == RemoveAt(Tracked(bs), k)
  {
    var ts := Tracked(bs);
    forall j | 0 <= j < |bs| - 1
      ensures Tracked(RemoveAt(bs, k))[j] == RemoveAt(ts, k)[j]
    {
      if j < k {
        assert RemoveAt(bs, k)[j] == bs[j] && RemoveAt(ts, k)[j] == ts[j];
      } else {
        assert RemoveAt(bs, k)[j] == bs[j + 1] && RemoveAt(ts, k)[j] == ts[j + 1];
      }
    }
  }

  /** Appending commutes with forgetting the cache bookkeeping. */
  lemma TrackedAppend(bs: seq<Block>, b: Block)
    ensures Tracked(bs + [b]) == Tracked(bs) + [Untagged(b)]
  {
    assert forall j :: 0 <= j < |bs| ==> (bs + [b])[j] == bs[j];
  }

  /** Overwriting a payload commutes with forgetting the cache bookkeeping. */
  lemma TrackedUpdate(bs: seq<Block>, j: nat, b: Block)
    requires j < |bs|
    ensures Tracked(bs[j := b]) == Tracked(bs)[j := Untagged(b)]
  {
  }

  /** `h2` holds the records of `h1`, differing at most in their cache bookkeeping. */
  ghost predicate Retagged(h1: map<Ptr, Entry>, h2: map<Ptr, Entry>)
  {
    h2.Keys == h1.Keys &&
    forall p :: p in h1 ==> h2[p].(block := Untagged(h2[p].block)) == h1[p].(block := Untagged(h1[p].block))
  }

  lemma RetaggedTrans(h1: map<Ptr, Entry>, h2: map<Ptr, Entry>, h3: map<Ptr, Entry>)
    requires Retagged(h1, h2) && Retagged(h2, h3)
    ensures Retagged(h1, h3)
  {
  }

  /** Over the same chain, retagged records carry the same tracked payloads. */
  lemma RetaggedPayloads(h1: map<Ptr, Entry>, h2: map<Ptr, Entry>, chain: seq<Ptr>)
    requires Linked(h1, chain) && Linked(h2, chain) && Retagged(h1, h2)
    ensures Tracked(Payloads(h2, chain)) == Tracked(Payloads(h1, chain))
  {
    forall j | 0 <= j < |chain| - 1
      ensures Tracked(Payloads(h2, chain))[j] == Tracked(Payloads(h1, chain))[j]
    {
      PayloadAt(h1, chain, j);
      PayloadAt(h2, chain, j);
      var p := chain[j + 1];
      assert h2[p].(block := Untagged(h2[p].block)).block == h1[p].(block := Untagged(h1[p].block)).block;
    }
  }

  /** The worker changes flags and weights, never what the registry tracks. */
  lemma WorkEntryRetags(c: Cache, ctx: Ptr, fixed: bool)
    requires Resolved(c) && ctx != NULL && ctx in c.heap
    ensures Retagged(c.heap, WorkEntry(c, ctx, fixed).heap)
  {
    var b := c.heap[ctx].block;
    if b.weight <= WEIGHT_CUTOFF {
      var c1 := Cache(c.slots, c.heap[ctx := c.heap[ctx].(block := b.(weight := 0, cached := true))], c.avail);
      PlaceRetags(c1, ctx, fixed, 0);
      RetaggedTrans(c.heap, c1.heap, WorkEntry(c, ctx, fixed).heap);
    }
  }

  lemma {:induction false} PlaceRetags(c: Cache, ctx: Ptr, fixed: bool, i: nat)
    requires Resolved(c) && ctx != NULL && ctx in c.heap
    ensures Retagged(c.heap, PlaceFrom(c, ctx, fixed, i).heap)
    decreases |c.slots| - i
  {
    if i < |c.slots| && c.slots[i].value != NULL && c.heap[c.slots[i].value].block.weight >= WEIGHT_CUTOFF {
      PlaceRetags(c, ctx, fixed, i + 1);
    }
  }

  /** The whole sweep changes flags and weights only. */
  lemma {:induction false} SweepRetags(c: Cache, ptrs: seq<Ptr>, fixed: bool, i: nat)
    requires Resolved(c) && forall p :: p in ptrs ==> p != NULL && p in c.heap
    ensures Retagged(c.heap, SweepFrom(c, ptrs, fixed, i).heap)
    decreases |ptrs| - i
  {
    if i < |ptrs| {
      assert ptrs[i] in ptrs;
      var c1 := WorkEntry(c, ptrs[i], fixed);
      WorkEntryRetags(c, ptrs[i], fixed);
      SweepRetags(c1, ptrs, fixed, i + 1);
      RetaggedTrans(c.heap, c1.heap, SweepFrom(c, ptrs, fixed, i).heap);
    }
  }

  /** Eviction changes flags only. */
  lemma {:induction false} EvictRetags(c: Cache, target: Option<Ptr>, mark: bool, i: nat)
    requires Resolved(c)
    ensures Retagged(c.heap, EvictFrom(c, target, mark, i).heap)
    decreases |c.slots| - i
  {
    if i < |c.slots| {
      var c1 := EvictAt(c, target, mark, i);
      EvictRetags(c1, target, mark, i + 1);
      RetaggedTrans(c.heap, c1.heap, EvictFrom(c, target, mark, i).heap);
    }
  }

  /** memman_work as written fills a free slot without decrementing
      available_cache_slots: four heavy entries cached, one slot free and
      counted, one light entry swept; afterwards the count still says one
      slot is free, none is, and the next put crashes. */
  lemma SweepLosesCount()
    ensures var c := SweepScenario();
      var r := SweepFrom(c, [6], false, 0);
      Resolved(c) && CountCoherent(c) && r.avail == 1 && FreeCount(r.slots) == 0 && !CountCoherent(r) &&
      TryPut(r, false, true, 6) == Crashed(SysFail)
  {
    var c := SweepScenario();
    ScenarioSweep();
    var r := SweepFrom(c, [6], false, 0);
    FreeCountPositive(r.slots);
    FreeCountUpdate(r.slots, 4, EMPTY_SLOT);
    assert r.slots[4 := EMPTY_SLOT] == c.slots;
    assert FirstFree(r.slots, 0).None?;
  }

  /** The sweep of SweepLosesCount puts entry 6 in the last slot and leaves
      the count alone. */
  lemma ScenarioSweep()
    ensures var c := SweepScenario();
      Resolved(c) &&
      SweepFrom(c, [6], false, 0).slots == c.slots[4 := Slot(15, 6)] && SweepFrom(c, [6], false, 0).avail == 1
  {
    var c := SweepScenario();
    var c1 := Cache(c.slots, c.heap[6 := c.heap[6].(block := c.heap[6].block.(weight := 0, cached := true))], 1);
    var r := PlaceFrom(c1, 6, false, 4);
    assert PlaceFrom(c1, 6, false, 0) == PlaceFrom(c1, 6, false, 1) == PlaceFrom(c1, 6, false, 2)
        == PlaceFrom(c1, 6, false, 3) == r;
    assert SweepFrom(c, [6], false, 0) == SweepFrom(WorkEntry(c, 6, false), [6], false, 1) == r;
  }

  /** The cache of SweepLosesCount: entries 2 to 5 weigh 20 and fill four
      slots, entry 6 weighs 0 and is not cached. */
  function SweepScenario(): (c: Cache)
    ensures |c.slots| == MAX_CACHE_SLOTS && 6 in c.heap
  {
    Cache([Slot(11, 2), Slot(12, 3), Slot(13, 4), Slot(14, 5), EMPTY_SLOT],
          map[2 := Entry(1, Block(11, 8, 1, true, 0, 20), false, 3),
              3 := Entry(2, Block(12, 8, 1, true, 0, 20), false, 4),
              4 := Entry(3, Block(13, 8, 1, true, 0, 20), false, 5),
              5 := Entry(4, Block(14, 8, 1, true, 0, 20), false, 6),
              6 := Entry(5, Block(15, 8, 1, false, 0, 0), false, NULL)],
          1)
  }

  // -------------------------------------------------------------- limits

  /** memman_canAllocateBasedOnLimitAndSize as written: no limit admits
      everything; otherwise the request is refused when the limit is at most
      usage + size, a size_t sum that wraps modulo 2^64. */
  function CanAllocateWith(limit: usize, usage: usize, size: usize): (b: bool)
    ensures limit == NO_ALLOC_LIMIT ==> b
    ensures usage + size < SIZE_MOD ==> (b <==> limit == NO_ALLOC_LIMIT || usage + size < limit)
  {
    if limit == NO_ALLOC_LIMIT then true
    else if limit <= (usage + size) % SIZE_MOD then false
    else true
  }

  /** The check the limit evidently intends: admit when there is no limit or
      usage + size, computed without wrap-around, stays under it. */
  function CanAllocateWithFixed(limit: usize, usage: usize, size: usize): (b: bool)
    ensures b <==> limit == NO_ALLOC_LIMIT || usage + size < limit
  {
    if limit == NO_ALLOC_LIMIT then true
    else if usage >= limit || size >= limit - usage then false
    else true
  }

  /** The wrap-around admits a request far over the limit: usage 50, limit
      100, size 2^64 - 10 sums to 40 modulo 2^64. */
  lemma CanAllocateWraps()
    ensures CanAllocateWith(100, 50, SIZE_MOD - 10) && !CanAllocateWithFixed(100, 50, SIZE_MOD - 10)
  {
  }

  /** memman_canAllocateBasedOnLimit is the size-0 check: usage under the
      limit, or no limit. */
  lemma CanAllocateNoSize(limit: usize, usage: usize)
    ensures CanAllocateWith(limit, usage, 0) <==> limit == NO_ALLOC_LIMIT || usage < limit
  {
  }

  /** An all-free table is counted by its length. */
  lemma {:induction false} FreeCountAllFree(s: seq<Slot>)
    requires forall i :: 0 <= i < |s| ==> s[i].key == NULL
    ensures FreeCount(s) == |s|
  {
    if s != [] {
      FreeCountAllFree(s[1..]);
    }
  }

  /** The table memman_new builds is live and counted over any registry, and
      flag-coherent exactly when no record is flagged cached yet. */
  lemma FreshTable(heap: map<Ptr, Entry>, chain: seq<Ptr>, head: Ptr)
    ensures var c := Cache(seq(MAX_CACHE_SLOTS, _ => EMPTY_SLOT), heap, MAX_CACHE_SLOTS as u8);
      Live(c, chain, head) && CountCoherent(c) &&
      (CachedCoherent(c) <==> forall p :: p in heap ==> !heap[p].block.cached)
  {
    var c := Cache(seq(MAX_CACHE_SLOTS, _ => EMPTY_SLOT), heap, MAX_CACHE_SLOTS as u8);
    FreeCountAllFree(c.slots);
    assert forall p :: !Holds(c.slots, p);
  }

  /** Rewriting a record's payload without changing its address keeps the
      slots live. */
  lemma LiveReblock(c: Cache, chain: seq<Ptr>, head: Ptr, r: Ptr, b: Block, a: u8)
    requires Live(c, chain, head) && r in c.heap && b.data == c.heap[r].block.data
    ensures Live(Cache(c.slots, c.heap[r := c.heap[r].(block := b)], a), chain, head)
  {
  }

  /** Emptying a slot, or filling it with a live entry keyed by its
      address, keeps the slots live. */
  lemma LiveSlot(c: Cache, chain: seq<Ptr>, head: Ptr, i: nat, x: Slot, a: u8)
    requires Live(c, chain, head) && i < |c.slots|
    requires x == EMPTY_SLOT ||
      (x.value != NULL && x.value in chain && x.value != head && x.value in c.heap && c.heap[x.value].block.data == x.key)
    ensures Live(Cache(c.slots[i := x], c.heap, a), chain, head)
  {
  }

  /** The manager: the slot table, its free count and switches, and the
      limit and usage figures (alloc_manager_t). The registry whose entries
      the slots name is passed to each operation, as the library passes its
      one global list. */
  class MemMan {
    const slots: array<Slot>
    var available: u8
    var cacheLock: bool
    var useCache: bool
    var allocLimit: usize
    var globalMemoryUsage: usize

    /** The cache over the registry `list`. */
    ghost function State(list: LinkedList): Cache
      reads this, slots, list`heap
    {
      Cache(slots[..], list.heap, available)
    }

    /** The table has its five slots, the registry is well formed, and every
        occupied slot names one of its live entries by that entry's address. */
    ghost predicate Serves(list: LinkedList)
      reads this, slots, list
    {
      slots.Length == MAX_CACHE_SLOTS && list.Valid() && Live(State(list), list.chain, list.head)
    }

    /** memman_new: five empty slots all counted free, caching on and
        unlocked, no limit and no recorded usage. */
    constructor ()
      ensures fresh(slots) && slots[..] == seq(MAX_CACHE_SLOTS, _ => EMPTY_SLOT)
      ensures available == MAX_CACHE_SLOTS as u8 && !cacheLock && useCache
      ensures allocLimit == NO_ALLOC_LIMIT && globalMemoryUsage == 0
    {
      slots := new Slot[MAX_CACHE_SLOTS](_ => EMPTY_SLOT);
      available := MAX_CACHE_SLOTS as u8;
      globalMemoryUsage := NO_ALLOC_LIMIT;
      cacheLock := false;
      useCache := true;
      allocLimit := NO_ALLOC_LIMIT;
    }

    /** memman_TryCacheHit: with caching on, the entry of the first keyed slot
        whose key is `key`, its weight bumped; otherwise NULL (a miss). A hit
        tracks `key`. */
    method TryCacheHit(list: LinkedList, key: Ptr) returns (r: Ptr)
      requires Serves(list)
      modifies list`heap
      ensures Serves(list)
      ensures var k := FirstKey(slots[..], key, 0);
        if !useCache || k.None? then r == NULL && list.heap == old(list.heap)
        else r == slots[k.value].value && list.heap == old(list.heap)[r := Bumped(old(list.heap)[r])]
      ensures r != NULL ==> r in list.chain && r != list.head && list.heap[r].block.data == key
      ensures CachedCoherent(old(State(list))) ==> CachedCoherent(State(list))
    {
      if !useCache {
        return NULL;
      }
      var i := 0;
      while i < MAX_CACHE_SLOTS && !(slots[i].key != NULL && slots[i].key == key)
        invariant 0 <= i <= MAX_CACHE_SLOTS
        invariant FirstKey(slots[..], key, i) == FirstKey(slots[..], key, 0)
      {
        i := i + 1;
      }
      if i == MAX_CACHE_SLOTS {
        return NULL;
      }
      r := slots[i].value;
      LiveReblock(State(list), list.chain, list.head, r, Bumped(list.heap[r]).block, available);
      list.SetBlock(r, Bumped(list.heap[r]).block);
    }

    /** memman_TryCacheHitById: with caching on, the entry of the first
        occupied slot whose entry carries block id `id`; otherwise NULL. */
    method TryCacheHitById(list: LinkedList, id: u16) returns (r: Ptr)
      requires Serves(list)
      ensures var k := FirstWithId(State(list), id, 0);
        r == if !useCache || k.None? then NULL else slots[k.value].value
      ensures r != NULL ==> r in list.chain && r != list.head && list.heap[r].block.blockId == id
    {
      if !useCache {
        return NULL;
      }
      var i := 0;
      while i < MAX_CACHE_SLOTS
        invariant 0 <= i <= MAX_CACHE_SLOTS
        invariant FirstWithId(State(list), id, i) == FirstWithId(State(list), id, 0)
      {
        var v := slots[i].value;
        if v != NULL && list.heap[v].block.blockId == id {
          return v;
        }
        i := i + 1;
      }
      return NULL;
    }

    /** One step of the eviction loop shared by memman_cacheInvalidate and
        memman_cacheClear, on slot `i`. */
    method EvictSlot(list: LinkedList, target: Option<Ptr>, mark: bool, i: nat)
      requires Serves(list) && i < MAX_CACHE_SLOTS
      modifies this`available, slots, list`heap
      ensures Serves(list)
      ensures State(list) == EvictAt(old(State(list)), target, mark, i)
    {
      var s := slots[i];
      if s.key != NULL && (target.None? || s.key == target.value) {
        ghost var c := State(list);
        LiveReblock(c, list.chain, list.head, s.value, c.heap[s.value].block.(cached := mark), c.avail);
        list.SetBlock(s.value, list.heap[s.value].block.(cached := mark));
        LiveSlot(State(list), list.chain, list.head, i, EMPTY_SLOT, WrapInc8(c.avail));
        available := WrapInc8(available);
        slots[i] := EMPTY_SLOT;
      }
    }

    /** The eviction loop shared by memman_cacheInvalidate and
        memman_cacheClear: every slot `target` selects has its entry flagged
        `mark`, the free count incremented and is zeroed. */
    method Evict(list: LinkedList, target: Option<Ptr>, mark: bool)
      requires Serves(list)
      modifies this`available, slots, list`heap
      ensures Serves(list)
      ensures State(list) == EvictFrom(old(State(list)), target, mark, 0)
    {
      var i := 0;
      while i < MAX_CACHE_SLOTS
        invariant 0 <= i <= MAX_CACHE_SLOTS
        invariant Serves(list)
        invariant EvictFrom(State(list), target, mark, i) == EvictFrom(old(State(list)), target, mark, 0)
      {
        EvictSlot(list, target, mark, i);
        i := i + 1;
      }
    }

    /** memman_cacheInvalidate: forget every slot keyed by `key`, clearing
        its entry's flag. Afterwards no slot is keyed by `key`, the others
        are untouched, and both invariants still hold if they held. */
    method CacheInvalidate(list: LinkedList, key: Ptr)
      requires Serves(list)
      modifies this`available, slots, list`heap
      ensures Serves(list)
      ensures State(list) == EvictFrom(old(State(list)), Some(key), false, 0)
      ensures key != NULL ==> FirstKey(slots[..], key, 0).None?
      ensures forall j :: 0 <= j < MAX_CACHE_SLOTS && old(slots[j]).key != key ==> slots[j] == old(slots[j])
      ensures CountCoherent(old(State(list))) ==> CountCoherent(State(list))
      ensures CachedCoherent(old(State(list))) ==> CachedCoherent(State(list))
    {
      ghost var c := State(list);
      Evict(list, Some(key), false);
      EvictSlots(c, Some(key), false, 0);
      if CountCoherent(c) {
        EvictKeepsCount(c, Some(key), false);
      }
      if CachedCoherent(c) {
        EvictKeepsCached(c, Some(key));
      }
    }

    /** memman_cacheClear as written: every keyed slot is emptied and
        counted free, but its entry is flagged cached. */
    method CacheClear(list: LinkedList)
      requires Serves(list)
      modifies this`available, slots, list`heap
      ensures Serves(list)
      ensures State(list) == EvictFrom(old(State(list)), None, true, 0)
      ensures forall j :: 0 <= j < MAX_CACHE_SLOTS ==> slots[j].key == NULL
      ensures CountCoherent(old(State(list))) ==> CountCoherent(State(list))
    {
      ghost var c := State(list);
      Evict(list, None, true);
      ClearEmpties(c, true);
      if CountCoherent(c) {
        EvictKeepsCount(c, None, true);
      }
    }

    /** The clear the source evidently intends: as CacheClear, but the
        evicted entries are flagged not cached, which keeps the flag
        invariant. */
    method CacheClearFixed(list: LinkedList)
      requires Serves(list)
      modifies this`available, slots, list`heap
      ensures Serves(list)
      ensures State(list) == EvictFrom(old(State(list)), None, false, 0)
      ensures forall j :: 0 <= j < MAX_CACHE_SLOTS ==> slots[j].key == NULL
      ensures CountCoherent(old(State(list))) ==> CountCoherent(State(list))
      ensures CachedCoherent(old(State(list))) ==> CachedCoherent(State(list))
    {
      ghost var c := State(list);
      Evict(list, None, false);
      ClearEmpties(c, false);
      if CountCoherent(c) {
        EvictKeepsCount(c, None, false);
      }
      if CachedCoherent(c) {
        EvictKeepsCached(c, None);
      }
    }

    /** memman_tryCachePut: offer the live entry `entry` to the cache, as
        TryPut describes; the crash is sn_crash(SN_ERR_SYS_FAIL). */
    method TryCachePut(list: LinkedList, entry: Ptr) returns (res: Outcome<bool>)
      requires Serves(list) && entry in list.chain && entry != list.head
      modifies this`available, slots, list`heap
      ensures Serves(list) && entry != NULL
      ensures var t := TryPut(old(State(list)), cacheLock, useCache, entry);
        res == (if t.Crashed? then Crashed(t.fault) else Returned(t.value.0)) &&
        (t.Returned? ==> State(list) == t.value.1) && (t.Crashed? ==> State(list) == old(State(list)))
    {
      LinkAt(list.heap, list.chain, IndexOf(list.chain, entry));
      ghost var c := State(list);
      if cacheLock || !useCache {
        return Returned(false);
      }
      if available == 0 {
        return Returned(false);
      }
      var i := 0;
      while i < MAX_CACHE_SLOTS && slots[i].key != NULL
        invariant 0 <= i <= MAX_CACHE_SLOTS
        invariant forall j :: 0 <= j < i ==> slots[j].key != NULL
      {
        i := i + 1;
      }
      if i == MAX_CACHE_SLOTS {
        assert FirstFree(c.slots, 0).None?;
        return Crashed(SysFail);
      }
      assert FirstFree(c.slots, 0) == Some(i);
      var x := Slot(list.heap[entry].block.data, entry);
      LiveSlot(c, list.chain, list.head, i, x, c.avail - 1);
      available := available - 1;
      slots[i] := x;
      LiveReblock(State(list), list.chain, list.head, entry, c.heap[entry].block.(cached := true), c.avail - 1);
      list.SetBlock(entry, list.heap[entry].block.(cached := true));
      assert State(list) == Cache(c.slots[i := x], Flag(c.heap, entry, true), c.avail - 1);
      return Returned(true);
    }

    /** memman_CacheAlgorithmWorker on the entry `ctx`, as WorkEntry
        describes. The slot loop's two placement branches (an empty slot, a
        light occupant) do the same thing, so the scan stops at the first
        slot either accepts and the placement follows it. */
    method Place(list: LinkedList, ctx: Ptr)
      requires Serves(list) && ctx in list.chain && ctx != list.head && ctx != NULL
      modifies slots, list`heap
      ensures Serves(list)
      ensures State(list) == WorkEntry(old(State(list)), ctx, false)
    {
      var b := list.heap[ctx].block;
      if b.weight <= WEIGHT_CUTOFF {
        LiveReblock(State(list), list.chain, list.head, ctx, b.(weight := 0, cached := true), available);
        list.SetBlock(ctx, b.(weight := 0, cached := true));
        ghost var c1 := State(list);
        var i := 0;
        while i < MAX_CACHE_SLOTS && slots[i].value != NULL && list.heap[slots[i].value].block.weight >= WEIGHT_CUTOFF
          invariant 0 <= i <= MAX_CACHE_SLOTS
          invariant PlaceFrom(c1, ctx, false, i) == PlaceFrom(c1, ctx, false, 0)
        {
          i := i + 1;
        }
        if i < MAX_CACHE_SLOTS {
          Occupy(list, ctx, i);
        }
      }
    }

    /** The placement step of Place: slot i takes the entry and its address,
        and the entry is flagged cached. */
    method Occupy(list: LinkedList, ctx: Ptr, i: nat)
      requires Serves(list) && ctx in list.chain && ctx != list.head && ctx != NULL && i < MAX_CACHE_SLOTS
      modifies slots, list`heap
      ensures Serves(list)
      ensures ctx in old(list.heap) &&
        State(list) == Cache(old(slots[..])[i := Slot(old(list.heap)[ctx].block.data, ctx)], Flag(old(list.heap), ctx, true), available)
    {
      ghost var c1 := State(list);
      var x := Slot(list.heap[ctx].block.data, ctx);
      LiveSlot(c1, list.chain, list.head, i, x, available);
      slots[i] := x;
      LiveReblock(State(list), list.chain, list.head, ctx, c1.heap[ctx].block.(cached := true), available);
      list.SetBlock(ctx, list.heap[ctx].block.(cached := true));
      assert State(list) == Cache(c1.slots[i := x], Flag(c1.heap, ctx, true), c1.avail);
    }

    /** memman_work: the worker over every entry of the registry in `next`
        order, as linked_list_forEach visits them. */
    method Work(list: LinkedList)
      requires Serves(list)
      modifies slots, list`heap
      ensures Serves(list)
      ensures (forall p :: p in old(list.chain) ==> p != NULL && p in old(list.heap)) &&
        State(list) == SweepFrom(old(State(list)), old(list.chain), false, 1)
      ensures Retagged(old(list.heap), list.heap)
      ensures Tracked(list.Blocks()) == Tracked(old(list.Blocks()))
    {
      LinkedElim(list.heap, list.chain);
      ghost var c0 := State(list);
      SweepRetags(c0, list.chain, false, 1);
      if list.len == 0 {
        return;
      }
      var entry := list.firstEntry;
      LinkAt(list.heap, list.chain, if |list.chain| == 1 then 0 else 1);
      if list.heap[entry].isHead {
        return;
      }
      var i: nat := 0;
      while entry != NULL
        invariant Serves(list)
        invariant forall p :: p in list.chain ==> p != NULL && p in list.heap
        invariant i < |list.chain|
        invariant entry == if i + 1 < |list.chain| then list.chain[i + 1] else NULL
        invariant SweepFrom(State(list), list.chain, false, i + 1) == SweepFrom(old(State(list)), list.chain, false, 1)
        decreases |list.chain| - i
      {
        LinkAt(list.heap, list.chain, i + 1);
        if i + 2 < |list.chain| {
          LinkAt(list.heap, list.chain, i + 2);
        }
        var next := list.heap[entry].next;
        Place(list, entry);
        entry := next;
        i := i + 1;
      }
      RetaggedPayloads(c0.heap, list.heap, list.chain);
    }

    /** memman_getGlobalMemoryUsage. */
    function GlobalMemoryUsage(): usize
      reads this
    {
      globalMemoryUsage
    }

    /** memman_setGlobalMemoryUsage: the getter then reads `usage`. */
    method SetGlobalMemoryUsage(usage: usize)
      modifies this`globalMemoryUsage
      ensures GlobalMemoryUsage() == usage
    {
      globalMemoryUsage := usage;
    }

    /** memman_getAllocLimit. */
    function AllocLimit(): usize
      reads this
    {
      allocLimit
    }

    /** memman_setAllocLimit: the getter then reads `limit`. */
    method SetAllocLimit(limit: usize)
      modifies this`allocLimit
      ensures AllocLimit() == limit
    {
      allocLimit := limit;
    }

    /** memman_canAllocateBasedOnLimit: no limit, or usage under it. */
    function CanAllocateBasedOnLimit(): (b: bool)
      reads this
      ensures b <==> allocLimit == NO_ALLOC_LIMIT || globalMemoryUsage < allocLimit
    {
      CanAllocateWith(allocLimit, globalMemoryUsage, 0)
    }

    /** memman_canAllocateBasedOnLimitAndSize, with its size_t wrap-around. */
    function CanAllocateBasedOnLimitAndSize(size: usize): (b: bool)
      reads this
      ensures allocLimit == NO_ALLOC_LIMIT ==> b
      ensures globalMemoryUsage + size < SIZE_MOD ==>
        (b <==> allocLimit == NO_ALLOC_LIMIT || globalMemoryUsage + size < allocLimit)
    {
      CanAllocateWith(allocLimit, globalMemoryUsage, size)
    }
  }
}
