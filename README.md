# libsafetynet, modelled in Dafny

libsafetynet is a tracking memory allocator written in C. It sits in front of
`malloc`/`free` and keeps one record per live block: the address, the size,
the owning thread and an optional block id. Callers can query those records,
and a small cache of recently used records sits beside the registry. This
project models the library's core as sequential Dafny and proves what each
operation does to the records, the cache and the last-error code.

Seven modules, one per layer of the library:

- `Common` (`common.dfy`): the shared vocabulary.
  - `Ptr` is a C pointer (NULL is 0).
  - `u8`, `u16` and `usize` are the fixed-width integers the library stores, with their wrap-around.
  - `ErrorCode` holds the error codes. `Outcome` says whether a call returned or crashed, and how (`sn_crash` with its code, or undefined behaviour).
- `Registry` (`registry.dfy`): the tracked-block registry of `backend_api/src/linked_list_c.c`, as class `LinkedList`.
  - The records live in an arena, `heap: map<Ptr, Entry>`. Destroying a record removes its key, so a dangling link is visible.
  - A ghost `chain` gives the physical order, with the sentinel first.
  - `Blocks()` is the abstract content: the payloads in `next` order.
  - `Valid()` says the arena is one doubly linked list behind the sentinel, `firstEntry`/`lastEntry` are its ends, and `len` counts at least its entries.
  - `Exact()` adds that `len` counts them exactly.
- `AllocManager` (`alloc_manager.dfy`): the five-slot cache and the usage/limit accounting of `backend_api/src/allocation_manager/alloc_manager_c.c`, as class `MemMan` over a `LinkedList`.
  - `Cache` is a value-level view of the table, the arena and the free counter, and the class methods are proved against functions on that view.
  - Two invariants: `CountCoherent` (the free counter equals the number of free slots) and `CachedCoherent` (a record is flagged `cached` exactly when a slot holds it).
- `SafetyNet` (`sn_api.dfy`): the public API of `src/sn_metadata.c`, `src/sn_cache.c` and `src/sn_allocator.c`, as class `Library`.
  - The library's globals (`mem_list`, `memory_manager` and the last error) are the class's fields.
  - `sn_error(code, ret)` sets the last error and returns `ret`.
- `EarlyList` (`early_list.dfy`): the earlier registry of `src/linked_list_c.c`, which pushes at the front.
- `PriList` (`pri_list.dfy`): the earlier list of `src/pri_list.c`, as class `PriList`.
  - The list has a global head and a six-slot cache.
  - Nodes carry a weight and a clock (`tto_order`), which trigger a re-caching sweep.
  - The file's globals (`caching_nodes`, `count_cache`, `tto_order`, `last_access_node`, `list_caching`, `list_cache_lock`) are fields.
  - Each operation is also a function on a value `World`, used in the lemmas.
- `EarlyApi` (`early_api.dfy`): the original API of `src/libsafetynet.c` over `PriList`, as class `EarlyLibrary`.

Common conventions:
- The raw allocator is a parameter. `pr` is what `malloc` returned, NULL meaning failure. `rec` is the address the record allocator returned.
- The calling thread's identity is a parameter `tid`.
- Mutexes are no-ops, because the model is sequential.
- Where the C code dereferences NULL, reads past an array or uses a destroyed record, the model returns `Crashed(UndefinedBehaviour)`. For `sn_crash` it returns `Crashed` with the crash code.
- Records and operations are therefore never assumed well behaved.

Behaviour of the code that a reader might not expect, kept as written:
- Weights: every successful lookup in the registry (`getByPtr`, `getByIndex`, `getById`) bumps the record's `uint8_t` weight with a bare `_weight++` (backend_api/src/linked_list_c.c:376, 402, 428), so the weight wraps from 255 to 0 (`Registry.Bumped`).
- Allocation limit and usage: `sn_malloc` never checks the allocation limit, and nothing updates `global_memory_usage`, so `sn_query_total_memory_usage` is always 0.
- Freeing an unknown address: the modern `sn_free` reports NO_ADDER_FOUND. Only the original API in `src/libsafetynet.c` reports SN_WARN_DUB_FREE, whose message is "Possible double free, but not found in registry" (src/sn_error.c:53).
- Duplicate registration: the modern `sn_register` pushes a record for every call, NULL and already-tracked addresses included. Only `sn_register_size` checks first.
- `sn_free`: the modern `sn_free` destroys the record without unlinking it or evicting it from the cache (see Findings).
- `memman_cacheClear`: the code flags evicted records as cached, and the model keeps that as written (see Findings).

## Model

| member | source | states |
|---|---|---|
| Registry.FirstMatch | backend_api/src/linked_list_c.c:332-339 | the reference search: the first position whose payload satisfies the test, no earlier position does, and None only when no position does |
| Registry.Walk | backend_api/src/linked_list_c.c:303-330 | what forEach computes: a yielded position is one of the visited entries |
| Registry.SearchWalk | backend_api/src/linked_list_c.c:332-339 | a forEach with a search worker yields exactly the first match |
| Registry.IndexWalk | backend_api/src/linked_list_c.c:382-390 | a forEach with the index worker yields position `index` exactly when the list has that many entries |
| Registry.LinkedDistinct | backend_api/include/linked_list_c.h:94-103 | a well-formed registry never visits a record twice |
| Registry.LinkedAppend | backend_api/src/linked_list_c.c:247-270 | linking a fresh record after the tail keeps the list linked and appends exactly its payload |
| Registry.LinkedDropLast | backend_api/src/linked_list_c.c:277-296 | unlinking and destroying the tail keeps the list linked and drops exactly the last payload |
| Registry.LinkedSplice | backend_api/src/linked_list_c.c:461-472 | splicing out an interior record keeps the list linked with the same ends and removes exactly that payload |
| Registry.LinkedSetBlock | backend_api/src/linked_list_c.c:129-135 | overwriting one record's payload keeps the list and changes exactly that payload |
| Registry.ShapedSplice | backend_api/src/linked_list_c.c:461-472 | splicing keeps the list object's shape, with `firstEntry` moved on when it was the spliced entry |
| Registry.ShapedDropLast | backend_api/src/linked_list_c.c:282-293 | popping keeps the shape: the predecessor becomes the tail, and `firstEntry` falls back to the sentinel when the list empties |
| Registry.LinkedList.constructor | backend_api/src/linked_list_c.c:204-229 | a new list holds only the sentinel, which is first and last, with `len` 0 and no content |
| Registry.LinkedList.SetBlock | backend_api/src/linked_list_c.c:129-135 | writing an entry's fields changes that entry's payload only and keeps the list valid |
| Registry.LinkedList.Push | backend_api/src/linked_list_c.c:247-270 | appends at the physical tail: the old tail points forward to the new record, which points back to it. The content gains exactly the new payload (weight, id and flag zero), `lastEntry` is the new record, `len` grows by one, and `firstEntry` changes only when the list was empty |
| Registry.LinkedList.Pop | backend_api/src/linked_list_c.c:277-296 | with only the sentinel, nothing changes. Otherwise the tail is destroyed, the content loses its last payload and `len` drops by one. `firstEntry` resets to the sentinel when the list empties, and an exact count stays exact |
| Registry.LinkedList.DropTail | backend_api/src/linked_list_c.c:282-293 | the unlinking half of pop on a non-empty list, with the same new state |
| Registry.LinkedList.ForEach | backend_api/src/linked_list_c.c:303-330 | visits the entries in `next` order with indices 0, 1, 2, … and returns the record of the position the worker stopped at (NULL when none), with the worker's accumulator |
| Registry.LinkedList.Touch | backend_api/src/linked_list_c.c:373-376 | a hit records the access and bumps that one entry's weight |
| Registry.LinkedList.GetByPtr | backend_api/src/linked_list_c.c:367-380 | NULL for a NULL key or an untracked key, with nothing changed. Otherwise the entry of the first payload tracking the key, recorded as last access, with its 8-bit weight bumped (wrapping) |
| Registry.LinkedList.HasPtr | backend_api/src/linked_list_c.c:341-354 | true exactly when the key is non-NULL and some entry tracks it |
| Registry.LinkedList.GetByIndex | backend_api/src/linked_list_c.c:392-407 | the entry at 0-based position `index` when it exists, with the access recorded. Otherwise NULL with nothing changed |
| Registry.LinkedList.GetById | backend_api/src/linked_list_c.c:419-432 | the entry of the first payload carrying the id, or NULL with nothing changed |
| Registry.LinkedList.HasId | backend_api/src/linked_list_c.c:356-365 | true exactly when some entry carries the id. A hit bumps the first such entry's weight and records it as last accessed; a miss changes nothing |
| Registry.LinkedList.Splice | backend_api/src/linked_list_c.c:461-472 | an interior entry is unlinked from both neighbours and destroyed. The content loses exactly that payload, and `firstEntry` moves on when it was that entry |
| Registry.LinkedList.Unchain | backend_api/src/linked_list_c.c:454-472 | removing any entry drops exactly its payload. `len` drops only when the entry was the tail |
| Registry.LinkedList.RemoveEntry | backend_api/src/linked_list_c.c:447-476 | NULL is refused with nothing changed. Otherwise the entry is destroyed and exactly its payload leaves the content, but `len` drops only for the tail (as written) |
| Registry.LinkedList.RemoveEntryCounted | backend_api/src/linked_list_c.c:447-476 | the intended removal: as RemoveEntry, but `len` always drops, so an exact count stays exact |
| Registry.LinkedList.RemoveEntryByPtr | backend_api/src/linked_list_c.c:435-445 | a NULL or untracked key changes nothing. Otherwise the first entry tracking the key is removed as RemoveEntry removes it |
| AllocManager.FreeCount | backend_api/include/allocation_manager/alloc_manager_c.h:33-55 | the number of free (unkeyed) slots, at most the table size |
| AllocManager.FreeCountPositive | backend_api/src/allocation_manager/alloc_manager_c.c:160-177 | a positive free count means some slot is free, and conversely |
| AllocManager.FirstKey | backend_api/src/allocation_manager/alloc_manager_c.c:92-106 | the hit scan: the first slot keyed by the key, never for a NULL key, and None only when no slot has it |
| AllocManager.FirstWithId | backend_api/src/allocation_manager/alloc_manager_c.c:111-124 | the by-id scan: the first occupied slot whose record carries the id, skipping empty slots |
| AllocManager.FirstFree | backend_api/src/allocation_manager/alloc_manager_c.c:165-176 | the put scan: the first free slot, None only when none is free |
| AllocManager.EvictFrom | backend_api/src/allocation_manager/alloc_manager_c.c:127-156 | the eviction loop keeps the table size, the arena's addresses and resolved slots |
| AllocManager.EvictSlots | backend_api/src/allocation_manager/alloc_manager_c.c:127-156 | invalidate and clear empty exactly the slots they select and keep every other slot |
| AllocManager.EvictHeap | backend_api/src/allocation_manager/alloc_manager_c.c:127-156 | eviction sets the flag on exactly the records held by selected slots and leaves every other record as it was |
| AllocManager.EvictFree | backend_api/src/allocation_manager/alloc_manager_c.c:127-156 | eviction frees exactly as many slots as it selects |
| AllocManager.EvictAvail | backend_api/src/allocation_manager/alloc_manager_c.c:127-156 | the 8-bit free counter rises by the number of selected slots, modulo 256 |
| AllocManager.EvictKeepsCount | backend_api/src/allocation_manager/alloc_manager_c.c:127-156 | both eviction sweeps keep the free counter equal to the number of free slots |
| AllocManager.HoldsAfterEvict | backend_api/src/allocation_manager/alloc_manager_c.c:131-140 | after an eviction a record is still held exactly when it was held and none of its slots was selected |
| AllocManager.EvictKeepsCached | backend_api/src/allocation_manager/alloc_manager_c.c:131-140 | an eviction that clears the flag keeps "flagged exactly when held" |
| AllocManager.InvalidateRemovesKey | backend_api/src/allocation_manager/alloc_manager_c.c:127-142 | after invalidating a key no slot is keyed by it, and every slot with another key is unchanged |
| AllocManager.ClearEmpties | backend_api/src/allocation_manager/alloc_manager_c.c:144-156 | after a clear every slot is free |
| AllocManager.ClearMarksEvictedCached | backend_api/src/allocation_manager/alloc_manager_c.c:148-154 | the clear as written leaves a record flagged cached that no slot holds, breaking flag coherence |
| AllocManager.TryPut | backend_api/src/allocation_manager/alloc_manager_c.c:158-178 | a put that succeeds flags the entry cached in a previously free slot. A refused put (locked, disabled or counted full) changes nothing |
| AllocManager.PutNeverCrashes | backend_api/src/allocation_manager/alloc_manager_c.c:165-177 | with the count invariant, the "no free slot" crash is unreachable |
| AllocManager.PutRetags | backend_api/src/allocation_manager/alloc_manager_c.c:158-178 | a put changes only cache bookkeeping, never what is tracked |
| AllocManager.PutKeepsCoherent | backend_api/src/allocation_manager/alloc_manager_c.c:158-178 | a put keeps both the count and the flag invariants |
| AllocManager.PutThenHit | backend_api/src/allocation_manager/alloc_manager_c.c:90-178 | after a successful put, a hit on the entry's address finds a slot holding a record that tracks that address |
| AllocManager.PlaceFrom | backend_api/src/allocation_manager/alloc_manager_c.c:62-77 | the worker's slot loop keeps the table size and the arena's addresses |
| AllocManager.WorkEntry | backend_api/src/allocation_manager/alloc_manager_c.c:49-79 | the worker on one entry keeps the table size and the arena's addresses |
| AllocManager.SweepFrom | backend_api/src/allocation_manager/alloc_manager_c.c:81-88 | the sweep keeps the table size and the arena's addresses |
| AllocManager.PlaceFixedKeepsCount | backend_api/src/allocation_manager/alloc_manager_c.c:58-74 | the corrected slot loop keeps every occupied slot keyed and the counter equal to the number of free slots |
| AllocManager.SweepFixedKeepsCount | backend_api/src/allocation_manager/alloc_manager_c.c:62-77 | the corrected sweep, which decrements the counter when it fills a free slot, keeps the counter equal to the number of free slots |
| AllocManager.Tracked | backend_api/include/linked_list_c.h:51-64 | what the registry tracks: every payload with its cache bookkeeping (flag and weight) forgotten |
| AllocManager.TrackedRemoveAt | backend_api/src/linked_list_c.c:447-476 | removing a payload commutes with forgetting the cache bookkeeping |
| AllocManager.TrackedAppend | backend_api/src/linked_list_c.c:247-270 | appending commutes with forgetting the cache bookkeeping |
| AllocManager.TrackedUpdate | backend_api/src/linked_list_c.c:129-135 | overwriting a payload commutes with forgetting the cache bookkeeping |
| AllocManager.RetaggedPayloads | backend_api/src/allocation_manager/alloc_manager_c.c:49-88 | records that differ only in cache bookkeeping carry the same tracked payloads |
| AllocManager.WorkEntryRetags | backend_api/src/allocation_manager/alloc_manager_c.c:49-79 | the worker changes only flags and weights |
| AllocManager.PlaceRetags | backend_api/src/allocation_manager/alloc_manager_c.c:62-77 | the slot loop changes only flags |
| AllocManager.SweepRetags | backend_api/src/allocation_manager/alloc_manager_c.c:81-88 | the whole sweep changes only flags and weights |
| AllocManager.EvictRetags | backend_api/src/allocation_manager/alloc_manager_c.c:127-156 | eviction changes only flags |
| AllocManager.SweepLosesCount | backend_api/src/allocation_manager/alloc_manager_c.c:62-77 | the sweep as written fills the last free slot without counting it: afterwards the counter says one slot is free, none is, and the next put crashes |
| AllocManager.ScenarioSweep | backend_api/src/allocation_manager/alloc_manager_c.c:54-78 | in that scenario the light entry takes the last slot and the counter stays at one |
| AllocManager.SweepScenario | backend_api/src/allocation_manager/alloc_manager_c.c:54-78 | the scenario has a five-slot table containing the swept entry |
| AllocManager.CanAllocateWith | backend_api/src/allocation_manager/alloc_manager_c.c:213-220 | no limit admits everything. Without overflow, the request is admitted exactly when usage plus size stays under the limit |
| AllocManager.CanAllocateWithFixed | backend_api/src/allocation_manager/alloc_manager_c.c:213-220 | the intended check: admitted exactly when there is no limit or usage plus size, without wrap-around, stays under it |
| AllocManager.CanAllocateWraps | backend_api/src/allocation_manager/alloc_manager_c.c:213-220 | the as-written check admits a request far over the limit whose sum wraps |
| AllocManager.CanAllocateNoSize | backend_api/src/allocation_manager/alloc_manager_c.c:204-211 | the limit-only check is the size-0 check: usage under the limit, or no limit |
| AllocManager.FreshTable | backend_api/src/allocation_manager/alloc_manager_c.c:27-40 | the table `memman_new` builds is counted and live over any registry, and flag-coherent exactly when no record is flagged yet |
| AllocManager.MemMan.constructor | backend_api/src/allocation_manager/alloc_manager_c.c:27-40 | five empty slots all counted free, caching on, unlocked, no limit and zero usage |
| AllocManager.MemMan.TryCacheHit | backend_api/src/allocation_manager/alloc_manager_c.c:90-107 | caching off or no slot keyed: NULL, with nothing changed. Otherwise the first keyed slot's entry, with its weight bumped. A hit is a live entry tracking the key, and flag coherence is kept |
| AllocManager.MemMan.TryCacheHitById | backend_api/src/allocation_manager/alloc_manager_c.c:109-125 | caching off or no match: NULL. Otherwise the first occupied slot's entry carrying the id, with weights untouched |
| AllocManager.MemMan.EvictSlot | backend_api/src/allocation_manager/alloc_manager_c.c:131-140 | one step of the eviction loop, as EvictAt describes |
| AllocManager.MemMan.Evict | backend_api/src/allocation_manager/alloc_manager_c.c:127-156 | the eviction loop over the table, as EvictFrom describes |
| AllocManager.MemMan.CacheInvalidate | backend_api/src/allocation_manager/alloc_manager_c.c:127-142 | no slot keeps the key, every other slot is unchanged, and both invariants are kept |
| AllocManager.MemMan.CacheClear | backend_api/src/allocation_manager/alloc_manager_c.c:144-156 | every slot is emptied and counted free (the count invariant is kept), with evicted entries flagged cached as written |
| AllocManager.MemMan.CacheClearFixed | backend_api/src/allocation_manager/alloc_manager_c.c:144-156 | the intended clear: as CacheClear, with entries flagged not cached, which keeps the flag invariant too |
| AllocManager.MemMan.TryCachePut | backend_api/src/allocation_manager/alloc_manager_c.c:158-178 | the put as TryPut describes, with its crash, on the class state |
| AllocManager.MemMan.Place | backend_api/src/allocation_manager/alloc_manager_c.c:49-79 | the worker on one entry, as WorkEntry describes |
| AllocManager.MemMan.Occupy | backend_api/src/allocation_manager/alloc_manager_c.c:60-73 | a slot takes the entry keyed by its address and the entry is flagged cached |
| AllocManager.MemMan.Work | backend_api/src/allocation_manager/alloc_manager_c.c:81-88 | the worker over every entry in `next` order, as SweepFrom describes. Only cache bookkeeping changes, so the tracked content is unchanged |
| AllocManager.MemMan.SetGlobalMemoryUsage | backend_api/src/allocation_manager/alloc_manager_c.c:186-190 | the getter then reads the value set |
| AllocManager.MemMan.SetAllocLimit | backend_api/src/allocation_manager/alloc_manager_c.c:198-202 | the getter then reads the value set |
| AllocManager.MemMan.CanAllocateBasedOnLimit | backend_api/src/allocation_manager/alloc_manager_c.c:204-211 | true exactly when there is no limit or usage is under it |
| AllocManager.MemMan.CanAllocateBasedOnLimitAndSize | backend_api/src/allocation_manager/alloc_manager_c.c:213-220 | no limit admits everything. Without overflow, the request is admitted exactly when usage plus size stays under the limit |
| SafetyNet.TrackedSearch | src/sn_metadata.c:40-46 | registries tracking the same payloads answer every search by address or by id alike, and agree on every tracked field |
| SafetyNet.Usage | src/sn_metadata.c:211-218 | a thread with no entry uses 0 bytes |
| SafetyNet.UsageConcat | src/sn_metadata.c:211-231 | usage adds up over concatenated registries |
| SafetyNet.UsageAppend | src/sn_allocator.c:40 | a new entry adds its size to its own thread's usage and nothing to any other thread's |
| SafetyNet.UsageRemoveAt | src/sn_metadata.c:211-231 | removing an entry takes its size off its thread's usage |
| SafetyNet.UsageTracked | src/sn_metadata.c:211-218 | usage reads only the tracked size and thread |
| SafetyNet.UsageWalk | src/sn_metadata.c:220-231 | the sum worker's walk adds the usage to the accumulator modulo 2^64 and never stops early |
| SafetyNet.DestroyLeavesDangling | src/sn_allocator.c:60-62 | destroying a record without unlinking it leaves its predecessor pointing at the destroyed record, so the registry is no longer a list |
| SafetyNet.Library.constructor | backend_api/src/setup.c:73-78 | an empty registry, a fresh manager with both invariants, and no error |
| SafetyNet.Library.ResetLastError | src/sn_error.c:31-35 | the last error becomes OK |
| SafetyNet.Library.Sweep | src/sn_metadata.c:27 | the maintenance sweep leaves the tracked content and the records' addresses alone |
| SafetyNet.Library.Track | backend_api/src/linked_list_c.c:247-270 | the registry gains exactly one entry with the given address, size and thread |
| SafetyNet.Library.Find | backend_api/src/linked_list_c.c:367-380 | the first entry tracking the address, its weight bumped and recorded as last accessed, or NULL with nothing changed. The tracked content is unchanged |
| SafetyNet.Library.CacheFind | src/sn_metadata.c:57 | a cache hit is an entry tracking the address, possible only with caching on, and only its weight changes |
| SafetyNet.Library.Lookup | src/sn_metadata.c:57-64 | NULL exactly when no entry tracks the address. Otherwise an entry tracking it, and the first one when caching is off |
| SafetyNet.Library.FindById | backend_api/src/linked_list_c.c:419-432 | the first entry carrying the id, or NULL when none does |
| SafetyNet.Library.LookupById | src/sn_metadata.c:152-159 | NULL exactly when no entry carries the id. Otherwise an entry carrying it, and the first one when caching is off |
| SafetyNet.Library.SnRegister | src/sn_metadata.c:25-30 | returns the pointer and tracks exactly one more entry (size 0) for it, with no NULL or duplicate check |
| SafetyNet.Library.SnQuerySize | src/sn_metadata.c:32-47 | NULL pointer: 0 with NULL_PTR. Untracked: 0 with NO_ADDER_FOUND. Otherwise the size of the first entry tracking it, with the error unchanged. The tracked content is unchanged |
| SafetyNet.Library.SnQueryTid | src/sn_metadata.c:49-67 | NULL pointer: 0 with NULL_PTR. Untracked: 0 with NO_ADDER_FOUND. Otherwise the thread of an entry tracking it (the first when caching is off) |
| SafetyNet.Library.SnRegisterSize | src/sn_metadata.c:69-86 | NULL pointer: NULL with NULL_PTR. Size 0: NULL with BAD_SIZE. An already-tracked pointer is returned with nothing added (idempotent). Otherwise exactly one entry with the size is added. A non-NULL result is tracked afterwards |
| SafetyNet.Library.TrackOnce | src/sn_metadata.c:82-85 | adds an entry exactly when none tracks the pointer, and the pointer is tracked afterwards |
| SafetyNet.Library.SnIsTrackedBlock | src/sn_metadata.c:88-97 | true exactly when the pointer is non-NULL and tracked. NULL sets NULL_PTR |
| SafetyNet.Library.Tag | backend_api/src/linked_list_c.c:129-135 | exactly one entry's block id changes |
| SafetyNet.Library.SnSetBlockId | src/sn_metadata.c:99-122 | NULL gives NULL_PTR, ids up to 20 give BAD_BLOCK_ID, and an untracked block gives NO_ADDER_FOUND, each with nothing tracked changed. Otherwise exactly one entry tracking the block gets the id |
| SafetyNet.Library.SnGetBlockId | src/sn_metadata.c:124-142 | NULL pointer: 0 with NULL_PTR. Untracked: 0 with NO_ADDER_FOUND. Otherwise the id of an entry tracking the block (the first when caching is off) |
| SafetyNet.Library.SnQueryBlockId | src/sn_metadata.c:144-162 | id 0: NULL with BAD_BLOCK_ID. No entry carries it: NULL with NO_ADDER_FOUND. Otherwise the address of an entry carrying it (the first when caching is off) |
| SafetyNet.Library.SnSetAllocLimit | src/sn_metadata.c:200-203 | the manager's limit becomes the argument |
| SafetyNet.Library.ThreadUsage | src/sn_metadata.c:224-230 | the size_t sum of the sizes of the thread's entries |
| SafetyNet.Library.SnQueryThreadMemoryUsage | src/sn_metadata.c:220-231 | the size_t sum of the sizes of the thread's entries, with the tracked content unchanged |
| SafetyNet.Library.SnQueryTotalMemoryUsage | src/sn_metadata.c:233-236 | the manager's usage figure, which nothing in the library updates, so it is 0 |
| SafetyNet.Library.SnRequestToFastCache | src/sn_cache.c:25-39 | NULL gives NULL_PTR and an untracked pointer NO_ADDER_FOUND, each returning false with the cache unchanged. Otherwise exactly the put's result on the found entry, bumped by the lookup |
| SafetyNet.Library.Offer | backend_api/src/allocation_manager/alloc_manager_c.c:158-178 | the put on the global state, with the tracked content unchanged |
| SafetyNet.Library.SnLockFastCache | src/sn_cache.c:41-44 | the cache is locked |
| SafetyNet.Library.SnUnlockFastCache | src/sn_cache.c:46-49 | the cache is unlocked |
| SafetyNet.Library.SnDoFastCaching | src/sn_cache.c:51-54 | caching is switched to the argument |
| SafetyNet.Library.SnFastCacheClear | src/sn_cache.c:56-59 | exactly the manager's clear, as written, with every slot empty afterwards |
| SafetyNet.Library.SnMalloc | src/sn_allocator.c:26-43 | size 0 gives BAD_SIZE and a failed malloc gives BAD_ALLOC, each returning NULL with the registry unchanged. Otherwise the block is returned and exactly one entry (block, size, thread) is appended |
| SafetyNet.Library.SnFree | src/sn_allocator.c:47-63 | NULL gives NULL_PTR and an untracked pointer NO_ADDER_FOUND, each with nothing changed. Otherwise exactly the first entry tracking the pointer leaves the heap, it stays recorded as last accessed, its predecessor still points at it, and the registry is no longer valid |
| SafetyNet.Library.Evict | backend_api/src/allocation_manager/alloc_manager_c.c:127-142 | afterwards no slot is keyed by the address or names its entry, and the count invariant is kept |
| SafetyNet.Library.Unregister | backend_api/src/linked_list_c.c:447-476 | the counted removal of an entry no slot names: the chain and content lose exactly that entry, and an exact count stays exact |
| SafetyNet.Library.SnFreeFixed | src/sn_allocator.c:47-63 | the intended free: the same error cases. A tracked pointer's first entry is evicted and removed, so the content loses exactly that payload and no slot keeps the key. An exact `len` stays exact and the free-slot count stays coherent |
| SafetyNet.Library.Discard | src/sn_allocator.c:60-62 | evicts, then removes the entry, as SnFreeFixed needs |
| EarlyList.Items | src/linked_list_c.h:29-68 | the payloads of the records, in chain order |
| EarlyList.Search | src/linked_list_c.c:278-302 | the first position whose payload and index satisfy the test, and None only when none does |
| EarlyList.SearchIndex | src/linked_list_c.c:347-355 | the index search finds position `index` exactly when it exists |
| EarlyList.Reweave | src/linked_list_c.c:161-174 | reweave keeps the arena's addresses |
| EarlyList.ReweaveTruncates | src/linked_list_c.c:161-174 | reweaving an interior entry leaves its predecessor's `next` NULL although an entry follows |
| EarlyList.ReweaveFirst | src/linked_list_c.c:161-174 | reweaving the first entry, which has no predecessor, does unlink it |
| EarlyList.UnweaveUnlinks | src/linked_list_c.c:161-174 | the intended reweave unlinks the record from both neighbours |
| EarlyList.FrontedUnlinked | src/linked_list_c.c:391-416 | unlinking an entry keeps the list shape, moves `firstEntry`/`lastEntry` past it, drops `len` and removes exactly its payload |
| EarlyList.FrontedUnweave | src/linked_list_c.c:391-416 | the intended unlink keeps the shape and removes exactly that payload |
| EarlyList.Unlinked | src/linked_list_c.c:400-411 | the unlinked heap and new ends, with the shape and content as FrontedUnlinked says |
| EarlyList.FrontedReweaveFirst | src/linked_list_c.c:400-411 | removing the first of two or more entries through reweave drops it from the front and keeps the shape |
| EarlyList.FrontedPrepend | src/linked_list_c.c:224-256 | linking a fresh record in front keeps the shape and puts its payload first |
| EarlyList.LinkedList.constructor | src/linked_list_c.c:181-206 | the head alone, which is both first and last, with no entries |
| EarlyList.LinkedList.Push | src/linked_list_c.c:224-256 | prepends: the new record is first and the head points at it. On an empty list it is also last; otherwise the last entry stays. `len` grows by one and the content gains the payload in front |
| EarlyList.LinkedList.Pop | src/linked_list_c.c:263-271 | as written: on an empty list the head itself is destroyed and `len` wraps. Otherwise the tail is destroyed while its predecessor still points at it. Either way the object is no longer a list |
| EarlyList.LinkedList.PopFixed | src/linked_list_c.c:263-271 | the intended pop: nothing on an empty list. Otherwise exactly the last payload goes, the tail is unlinked and `len` drops |
| EarlyList.LinkedList.Excise | src/linked_list_c.c:391-416 | the intended unlink of any entry: exactly its payload goes and `len` drops |
| EarlyList.LinkedList.ForEach | src/linked_list_c.c:278-302 | visits the entries in `next` order and returns the first the worker accepts, or NULL |
| EarlyList.LinkedList.GetByPtr | src/linked_list_c.c:339-345 | NULL for a NULL or untracked key. Otherwise the first entry tracking it, recorded as last access |
| EarlyList.LinkedList.HasPtr | src/linked_list_c.c:313-326 | true exactly when the key is non-NULL and tracked |
| EarlyList.LinkedList.GetByIndex | src/linked_list_c.c:357-366 | the entry at position `index` when it exists, NULL otherwise (`index == len` included) |
| EarlyList.LinkedList.GetById | src/linked_list_c.c:378-388 | the first entry carrying the id, or NULL |
| EarlyList.LinkedList.HasId | src/linked_list_c.c:328-337 | as written: true exactly when NO entry carries the id. The first entry carrying it, if any, is recorded as last accessed |
| EarlyList.LinkedList.HasIdFixed | src/linked_list_c.c:328-337 | the intended test: true exactly when some entry carries the id. The first entry carrying it, if any, is recorded as last accessed |
| EarlyList.LinkedList.RemoveEntryByPtr | src/linked_list_c.c:391-416 | NULL key: nothing. An untracked key, or any entry but a first entry with a successor: the sn_crash. Otherwise that first entry is removed from the front |
| EarlyList.LinkedList.RemoveEntryByPtrFixed | src/linked_list_c.c:391-416 | the intended removal: any tracked entry is unlinked, with exactly its payload gone. An unknown key still crashes |
| PriList.Weighed | src/pri_list.c:191 | the node's weight becomes the value, and nothing else changes |
| PriList.Enlisted | src/pri_list.c:71-72 | a node put in a slot has weight 0 and is flagged cached |
| PriList.ResetFrom | src/pri_list.c:134-142 | resetting the weights changes only weights |
| PriList.ZeroSlots | src/pri_list.c:154-157 | when the first sweep loop returns, it has changed only weights |
| PriList.WalkFrom | src/pri_list.c:159-173 | when the second sweep loop returns, it has changed only the cache bookkeeping |
| PriList.WalkStep | src/pri_list.c:161-172 | one step of that loop changes only the cache bookkeeping |
| PriList.Place | src/pri_list.c:163-171 | the slot takes the node keyed by its data, the node has weight 0, and the cursor is set |
| PriList.SweepOf | src/pri_list.c:144-175 | a sweep that returns changes only weights, flags, slots and cursor |
| PriList.IncWeightOf | src/pri_list.c:187-195 | inc_weight changes only the cache bookkeeping |
| PriList.IncTimeOf | src/pri_list.c:177-185 | the clock restarts at 1 after TTO_LIMIT and otherwise advances as a uint8_t, and only the bookkeeping changes |
| PriList.FirstKey | src/pri_list.c:98-104 | the first slot keyed by the key, and None only when none is |
| PriList.VisitOf | src/pri_list.c:312-318 | a hit returns the node, records it as last accessed and changes only the bookkeeping |
| PriList.QueryOf | src/pri_list.c:301-324 | list_query changes only the bookkeeping |
| PriList.ScanOf | src/pri_list.c:310-322 | the walk changes only the bookkeeping |
| PriList.QueryByIdOf | src/pri_list.c:327-350 | list_query_by_id changes only the bookkeeping |
| PriList.ZeroSlotsFaults | src/pri_list.c:154-157 | as written, an empty slot makes the first sweep loop dereference NULL |
| PriList.ZeroSlotsZeroes | src/pri_list.c:154-157 | with every slot occupied, the first sweep loop zeroes each slot's node |
| PriList.WalkFaults | src/pri_list.c:163-171 | as written, with the cursor at 6, the walk faults on the first node it would cache |
| PriList.SweepFaults | src/pri_list.c:144-175 | as written, a sweep with caching on and a node behind the head always faults |
| PriList.ZeroSlotsFixedSafe | src/pri_list.c:154-157 | the corrected first loop never faults |
| PriList.WalkSafe | src/pri_list.c:159-173 | the walk keeps the slots live and the cursor in range, and the corrected walk never faults |
| PriList.WalkStepSafe | src/pri_list.c:161-172 | the same for one step |
| PriList.SweepSafe | src/pri_list.c:144-175 | the sweep keeps the cache invariant, and the corrected sweep never faults |
| PriList.SweepKeepsCache | src/pri_list.c:144-175 | as written, a sweep that returns has changed nothing about the cache |
| PriList.CachedNodeLive | src/pri_list.c:95-106 | a cache hit on live slots is a node of the list holding the key |
| PriList.QueryFinds | src/pri_list.c:301-324 | a returned node is in the list and holds the data, and the result is NULL exactly when no node holds it |
| PriList.QueryBumps | src/pri_list.c:301-324 | a lookup that triggers no sweep bumps the found node's weight and the clock, records the node and changes nothing else |
| PriList.VisitBumps | src/pri_list.c:312-318 | the same for the visit of a hit |
| PriList.QueryFaults | src/pri_list.c:187-195 | as written, with an empty cache, a lookup whose node has reached weight 60 (or the clock 127) faults |
| PriList.VisitFaults | src/pri_list.c:312-318 | the same for a visit |
| PriList.SweepEmptyFaults | src/pri_list.c:154-157 | as written, a sweep with an empty cache faults |
| PriList.QueryKeepsCache | src/pri_list.c:301-324 | as written, a lookup that returns leaves the slots and the cursor as they were |
| PriList.AddCacheAdvances | src/pri_list.c:58-80 | as written, a successful add fills the cursor's slot and advances the cursor without wrapping it |
| PriList.FillAdvances | src/pri_list.c:67-76 | the same for the fill after the lookup |
| PriList.AddCacheOverruns | src/pri_list.c:62 | as written, with the cursor at 6 the add reads past the six-slot table |
| PriList.QuerySafe | src/pri_list.c:301-324 | list_query keeps the cache invariant, and the corrected lookup never faults |
| PriList.QueryByIdSafe | src/pri_list.c:327-350 | the same for list_query_by_id |
| PriList.ScanSafe | src/pri_list.c:310-322 | the same for the walk |
| PriList.VisitSafe | src/pri_list.c:312-318 | the same for a visit |
| PriList.IncWeightSafe | src/pri_list.c:187-195 | the same for inc_weight |
| PriList.IncTimeSafe | src/pri_list.c:177-185 | the same for inc_time |
| PriList.AddCacheSafe | src/pri_list.c:58-80 | add_cache_node keeps the cache invariant, and the corrected add never faults |
| PriList.FillSafe | src/pri_list.c:67-76 | the same for the fill |
| PriList.FillLive | src/pri_list.c:69-72 | filling a slot with the node the lookup found keeps the slots live |
| PriList.CachedByIdFaults | src/pri_list.c:109-120 | as written, a by-id scan that returns NULL has met six occupied slots, none holding the id, and a hit carries the id |
| PriList.CachedByIdFixed | src/pri_list.c:109-120 | the corrected scan never faults. Its hit carries the id, and it returns NULL only when no occupied slot has the id |
| PriList.ClearFromClears | src/pri_list.c:42-56 | cache_clear empties every keyed slot, unflags its node, keeps the other slots and raises no flag |
| PriList.FreeKeeps | src/pri_list.c:273-298 | freeing a node behind the head keeps the rest of the list linked with the same head, keeps the slots live and removes exactly its payload |
| PriList.FreeUnlinks | src/pri_list.c:279-292 | the list part of FreeKeeps |
| PriList.ClearedLive | src/pri_list.c:42-56 | cache_clear keeps the list and the slots live |
| PriList.PriList.constructor | src/pri_list.c:197-211 | the head alone (no data, weight 255), no slot occupied, cursor and clock at 0 |
| PriList.PriList.IndexToLast | src/pri_list.c:213-221 | the last node of the list |
| PriList.PriList.Len | src/pri_list.c:260-270 | the number of nodes, the head included |
| PriList.PriList.Add | src/pri_list.c:223-244 | appends after the last node a node with the data (size 0, id 0, weight 0, not cached). The content gains exactly that payload, and nothing else changes |
| PriList.PriList.Resize | src/libsafetynet.c:50-51 | only that node's size changes |
| PriList.PriList.RemoveCacheNode | src/pri_list.c:122-132 | every slot naming the node is emptied |
| PriList.PriList.Free | src/pri_list.c:273-298 | NULL changes nothing. Otherwise the neighbours are linked to each other, the node's slots are emptied and the node is destroyed. For a node other than the head, the list stays valid and loses exactly its payload |
| PriList.PriList.ClearCache | src/pri_list.c:42-56 | the clear as ClearOf describes, and it never faults |
| PriList.PriList.GetCachingNode | src/pri_list.c:95-106 | the node of the first slot keyed by the data when caching is on |
| PriList.PriList.GetCachingNodeById | src/pri_list.c:109-120 | the by-id scan when caching is on, NULL otherwise |
| PriList.PriList.ResetWeights | src/pri_list.c:134-142 | the walk from the node after the head is ResetFrom on the arena, so only weights change and the list stays valid |
| PriList.PriList.ZeroCachedWeights | src/pri_list.c:154-157 | the first sweep loop, reporting whether it faulted |
| PriList.PriList.PlaceAt | src/pri_list.c:163-171 | one placement of the sweep |
| PriList.PriList.Walk | src/pri_list.c:159-173 | the second sweep loop, as WalkFrom describes |
| PriList.PriList.WalkAt | src/pri_list.c:161-172 | one step of that loop |
| PriList.PriList.Sweep | src/pri_list.c:144-175 | the sweep, as SweepOf describes |
| PriList.PriList.IncWeight | src/pri_list.c:187-195 | inc_weight, as IncWeightOf describes |
| PriList.PriList.Reweigh | src/pri_list.c:191 | the node's weight becomes the value, as Weighed describes, and the list stays valid |
| PriList.PriList.IncTime | src/pri_list.c:177-185 | inc_time, as IncTimeOf describes |
| PriList.PriList.Visit | src/pri_list.c:312-318 | a hit's visit, as VisitOf describes |
| PriList.PriList.Scan | src/pri_list.c:310-322 | the walk, as ScanOf describes |
| PriList.PriList.Query | src/pri_list.c:301-324 | list_query, as QueryOf describes |
| PriList.PriList.QueryById | src/pri_list.c:327-350 | list_query_by_id, as QueryByIdOf describes |
| PriList.PriList.AddCacheNode | src/pri_list.c:58-80 | add_cache_node, as AddCacheOf describes |
| PriList.PriList.Fill | src/pri_list.c:67-76 | the fill after the lookup, as FillOf describes |
| PriList.PriList.Slot | src/pri_list.c:69-73 | the node takes the slot under the given key, gets weight 0 and is flagged cached, and the cursor moves on. Only bookkeeping changes |
| EarlyApi.EarlyLookup | src/pri_list.c:301-324 | through the API, whose cache stays empty: a lookup faults exactly when the first node tracking the pointer has reached weight 60 or the clock is at 127. Otherwise it returns that node (NULL when none), with the cache and the tracked content unchanged |
| EarlyApi.EarlyLibrary.constructor | src/setup.c:42-45 | an empty list and no error |
| EarlyApi.EarlyLibrary.ResetLastError | src/libsafetynet.c:161-166 | the last error becomes OK |
| EarlyApi.EarlyLibrary.Lookup | src/libsafetynet.c:64 | faults exactly when EarlyLookup says so. Otherwise NULL exactly when untracked, else the first node tracking the pointer, with the tracked content unchanged |
| EarlyApi.EarlyLibrary.SnMalloc | src/libsafetynet.c:34-53 | size 0 gives BAD_SIZE and a failed malloc gives BAD_ALLOC, each returning NULL with nothing added. Otherwise exactly one node (block, size) is added and the block returned |
| EarlyApi.EarlyLibrary.Track | src/libsafetynet.c:50-51 | exactly one node with the data and size is appended |
| EarlyApi.EarlyLibrary.SnFree | src/libsafetynet.c:56-72 | NULL gives NULL_PTR with nothing changed. A tracked pointer's first node is unlinked and exactly its payload leaves the list. An untracked pointer gives WARN_DUB_FREE with the list unchanged. The call faults exactly when the lookup does |
| EarlyApi.EarlyLibrary.Release | src/pri_list.c:273-298 | freeing a node behind the head removes exactly its payload and keeps the list valid |
| EarlyApi.EarlyLibrary.SnRegister | src/libsafetynet.c:75-90 | faults exactly when the lookup does. Otherwise the error becomes NO_SIZE, or NULL_PTR for NULL. The pointer is returned, and a node is added exactly when the pointer is non-NULL and untracked; it is tracked afterwards |
| EarlyApi.EarlyLibrary.Adopt | src/libsafetynet.c:83-88 | faults exactly when the lookup does. Otherwise adds a node exactly when the pointer is untracked, and the pointer is tracked afterwards |
| EarlyApi.EarlyLibrary.SnRegisterSize | src/libsafetynet.c:130-152 | faults exactly when the lookup does. Otherwise size 0 gives BAD_SIZE, then NULL gives NULL_PTR, each returning NULL with nothing added. An already-tracked pointer gives NULL with NO_ADDER_FOUND. Otherwise exactly one node with the size is added and the pointer returned |
| EarlyApi.EarlyLibrary.SnQuerySize | src/libsafetynet.c:93-109 | faults exactly when the lookup does. Otherwise NULL gives 0 with NULL_PTR and an untracked pointer 0 with NO_ADDER_FOUND. Otherwise the first tracking node's size, with NO_SIZE when that size is 0 |
| EarlyApi.EarlyLibrary.SnQueryTid | src/libsafetynet.c:112-127 | faults exactly when the lookup does. Otherwise NULL gives 0 with NULL_PTR and an untracked pointer 0 with NO_ADDER_FOUND. Otherwise the first tracking node's thread |
| EarlyApi.EarlyLibrary.SnIsTrackedBlock | src/libsafetynet.c:220-233 | faults exactly when the lookup does. Otherwise true exactly when the pointer is non-NULL and tracked. NULL sets NULL_PTR |

## Left out

- Mutexes and thread identity (`plat_mutex_*`, `pthread_mutex_*`, `plat_getTid`): every lock is a no-op in a sequential model, and the thread is a parameter. Lock leaks on early returns, such as `linked_list_pop` on an empty list, are not modelled. Nor are the early list's self-deadlocks on its non-recursive mutex (src/plat_threading.c:72-81): `linked_list_hasPtr` locks (src/linked_list_c.c:316) and then `linked_list_forEach` locks again (:282), `forEach` relocks inside its loop (:292), and `linked_list_getById` locks (:381) and never unlocks. The model runs these as if each lock succeeded.
- Crash reporters and `sn_crash`: a crash is the outcome `Crashed(code)`. The printing, stack walking and process exit are not modelled.
- Allocator failures: the library calls `sn_crash` when allocating a record or the list object fails. The model assumes the allocator returns a fresh address instead, as the `rec != NULL && rec !in heap` requirements.
- The raw allocator (`malloc`/`free`): `malloc`'s result is the parameter `pr`. Freeing a user block is not modelled, only destroying its record.
- Error-message tables, `get_error_msg`, `sn_query_metadata`, `sn_query_static_metadata`, `sn_calculate_checksum` and the file I/O of `src/sn_file_work.c`: string tables, type punning, byte-order-dependent memory reads and I/O.
- `sn_realloc` and the reallocation path: `sn_realloc` is not part of this model.
- `linked_list_destroy`, `list_free_all` and `list_free_all_with_data`: teardown at library unload.
- `remove_cached_ptr` (src/pri_list.c:82-93): nothing calls it.
- `list_index_to_last(NULL)`: the library always passes its head.
- `linked_list_peek`, `linked_list_getSize` and the entry getters and setters other than the block-id setter: plain field reads and writes, covered by the state the class exposes.
- `Registry.LinkedList.RemoveEntry`: takes only NULL or an entry of the list other than the sentinel. On an empty list the source's removal of the sentinel goes through `linked_list_pop` and changes nothing (backend_api/src/linked_list_c.c:454-458); on a non-empty list it destroys the sentinel and leaves `head` dangling (:461-469). The only caller, `linked_list_removeEntryByPtr` (:440-442), passes a `forEach` result, which is never the sentinel, so the model leaves that case out.
- `EarlyList.LinkedList`: `head.next` is written by push but never read, so the list shape does not constrain it.
- `EarlyApi.EarlyLibrary`:
  - `list_caching` and `list_cache_lock` keep their initial values (on, unlocked). Nothing in the original API changes them.
  - The cache stays empty, because nothing in the original API calls `add_cache_node`. The `PriList` class models `add_cache_node` on its own.
- `PriList.PriList.Free`: for the head node it states only the new arena and slots, not a well-formed list, because freeing the head breaks the list in the source too.
- `SafetyNet.Library.SnQueryTid`: with caching on it states only that the result is the thread of some entry tracking the pointer, not which one. The cache may hold a later duplicate of the address.
- `SafetyNet.Library.SnGetBlockId`: the same weakening as `SnQueryTid`, with caching on.
- `SafetyNet.Library.SnQueryBlockId`: the same weakening as `SnQueryTid`, with caching on.
- `SafetyNet.Library.SnSetBlockId`: the same weakening as `SnQueryTid`. It states that exactly one entry tracking the block gets the id, not which one when caching is on.
- `SafetyNet.Library.Lookup`: the same weakening as `SnQueryTid`, with caching on.
- `SafetyNet.Library.LookupById`: the same weakening as `SnQueryTid`, with caching on.
- `SafetyNet.Library`: the maintenance sweep runs on the API calls as written. Its effect on the API calls' contracts is stated only as "the tracked content is unchanged" and not slot by slot. `AllocManager.MemMan.Work` states it exactly.
- `SafetyNet.Usage`: a mathematical sum without wrap-around. The API result is that sum modulo 2^64, as `ThreadUsage` states.

## Findings

| source | as written | input that shows it | evidently intended | confidence | as-written member | corrected member |
|---|---|---|---|---|---|---|
| backend_api/src/linked_list_c.c:461-475 | removing an entry other than the tail splices it out but never decrements `len` | a list with two entries; remove the first; `len` stays 2 with one entry left | every removal decrements `len` | not executed | Registry.LinkedList.RemoveEntry | Registry.LinkedList.RemoveEntryCounted |
| backend_api/src/allocation_manager/alloc_manager_c.c:148-154 | clearing the cache sets each evicted entry's `cached` flag to 1 | one cached entry in slot 0; clear; the entry is flagged cached and no slot holds it | the flag is cleared | not executed | AllocManager.ClearMarksEvictedCached | AllocManager.MemMan.CacheClearFixed |
| backend_api/src/allocation_manager/alloc_manager_c.c:62-77 | the maintenance worker fills an empty slot without decrementing `available_cache_slots` | four heavy entries cached, one free slot, one light entry swept; the counter still says one slot is free and the next put crashes | the counter drops when an empty slot is taken | not executed | AllocManager.SweepLosesCount | AllocManager.SweepFixedKeepsCount |
| backend_api/src/allocation_manager/alloc_manager_c.c:213-220 | `usage + size` is computed in size_t and wraps | limit 100, usage 50, size 2^64 - 10: admitted | the sum is compared without overflow | not executed | AllocManager.CanAllocateWraps | AllocManager.CanAllocateWithFixed |
| src/sn_allocator.c:60-62 | `sn_free` destroys the record without unlinking it or evicting it from the cache | malloc one block, free it; the sentinel's `next` points at the destroyed record | unlink, evict, then destroy | not executed | SafetyNet.DestroyLeavesDangling | SafetyNet.Library.SnFreeFixed |
| src/linked_list_c.c:263-271 | pop has no empty-list guard and leaves the predecessor's `next` pointing at the destroyed tail | pop on an empty list destroys the head; pop on a list of two leaves a dangling `next` | the backend's guarded pop | not executed | EarlyList.LinkedList.Pop | EarlyList.LinkedList.PopFixed |
| src/linked_list_c.c:333-336 | `hasId` returns true when the lookup finds nothing | an empty list and any id: true | true exactly when some entry carries the id | not executed | EarlyList.LinkedList.HasId | EarlyList.LinkedList.HasIdFixed |
| src/linked_list_c.c:400-404 | the `else` of the first-entry test crashes for every entry but a first entry with a successor | push a then b (b is first); remove a; sn_crash | unlink any tracked entry | not executed | EarlyList.LinkedList.RemoveEntryByPtr | EarlyList.LinkedList.RemoveEntryByPtrFixed |
| src/linked_list_c.c:163-172 | reweave clears the entry's `next` before copying it into the predecessor | reweave the middle entry of three; the first entry's `next` becomes NULL | each neighbour is pointed past the entry | not executed | EarlyList.ReweaveTruncates | EarlyList.UnweaveUnlinks |
| src/pri_list.c:154-157 | the sweep's first loop dereferences every slot's node, empty slots included | caching on, empty cache, one block tracked, sweep: NULL dereference | empty slots are skipped | not executed | PriList.SweepEmptyFaults | PriList.SweepSafe |
| src/pri_list.c:171 | the sweep resets the cursor only after it has reached 6, so slot 6 of six is written | six occupied slots and a light node; the sweep writes `caching_nodes[6]` | the cursor wraps at 6 | not executed | PriList.SweepFaults | PriList.SweepSafe |
| src/pri_list.c:62-73 | add_cache_node reads the cursor's slot before the cursor is ever wrapped | six successful adds from an empty table; the seventh reads `caching_nodes[6]` | the cursor wraps at 6 | not executed | PriList.AddCacheOverruns | PriList.AddCacheSafe |
| src/pri_list.c:113-118 | the by-id scan dereferences the node of every slot, empty slots included | caching on and an empty cache; list_query_by_id: NULL dereference | empty slots are skipped | not executed | PriList.CachedByIdFaults | PriList.CachedByIdFixed |
| src/pri_list.c:187-195 | through the original API the cache is always empty, so a lookup that triggers the sweep dereferences an empty slot | sn_malloc one block, then call sn_query_size on it 61 times; the 61st call sweeps and faults | lookups never fault | not executed | PriList.QueryFaults | PriList.QuerySafe |
