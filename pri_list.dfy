/** The earlier global registry of src/pri_list.c: one list of nodes rooted at
    a head node made by list_init, a six-slot cache of (key, node) pairs with
    the slot cursor `count_cache`, a lookup clock `tto_order`, and a
    re-caching sweep triggered by node weights and by the clock.

    A node carries the same payload as a backend registry record, so the
    arena and its lemmas are shared with the registry; the `isHead` mark on
    the head node exists only in the model, to say which node list_init made.
    The file's globals (the slot table, count_cache, tto_order,
    last_access_node, list_caching and list_cache_lock) are fields of the
    class below. */
module PriList {
  import opened Common
  import opened Registry
  import AllocManager

  /** The length of the caching_nodes table. */
  const CACHE_SLOTS: nat := 6
  /** inc_weight bumps a weight below this, and sweeps otherwise. */
  const WEIGHT_CAP: u8 := 60
  /** The sweep caches every node whose weight is below this. */
  const RECACHE_BELOW: u8 := 54
  /** INT8_MAX: inc_time sweeps when tto_order reaches it. */
  const TTO_LIMIT: u8 := 127
  /** The weight list_init gives the head. */
  const HEAD_WEIGHT: u8 := 255

  /** node_pair_t: a slot of the cache table. */
  datatype Pair = Pair(key: Ptr, node: Ptr)
  const EMPTY_PAIR: Pair := Pair(NULL, NULL)

  /** The state the file's operations act on: the node arena and the
      globals caching_nodes, count_cache, tto_order and last_access_node. */
  datatype World = World(heap: map<Ptr, Entry>, slots: seq<Pair>, count: u8, tto: u8, lastAccess: Ptr)

  /** list_init: no links, no data, size and tid 0, not cached, block id 0,
      weight UINT8_MAX. */
  function HeadEntry(): Entry
  {
    Entry(NULL, Block(NULL, 0, 0, false, 0, HEAD_WEIGHT), true, NULL)
  }

  /** The arena after `node->weight = w`. */
  function Weighed(heap: map<Ptr, Entry>, p: Ptr, w: u8): (h: map<Ptr, Entry>)
    requires p in heap
    ensures h.Keys == heap.Keys && h[p].block.weight == w
  {
    heap[p := heap[p].(block := heap[p].block.(weight := w))]
  }

  /** The arena after a node is put in a slot: weight 0, `cached` set. */
  function Enlisted(heap: map<Ptr, Entry>, p: Ptr): (h: map<Ptr, Entry>)
    requires p in heap
    ensures h.Keys == heap.Keys && h[p].block.weight == 0 && h[p].block.cached
  {
    heap[p := heap[p].(block := heap[p].block.(weight := 0, cached := true))]
  }

  /** Every occupied slot names a node of the arena and is keyed by that
      node's data; a slot with no node has no key. */
  ghost predicate Resolved(slots: seq<Pair>, heap: map<Ptr, Entry>)
  {
    forall i :: 0 <= i < |slots| ==>
      (slots[i].node == NULL ==> slots[i].key == NULL) &&
      (slots[i].node != NULL ==> slots[i].node in heap && heap[slots[i].node].block.data == slots[i].key)
  }

  /** Resolved, and every occupied slot names a node of the list. */
  ghost predicate Live(slots: seq<Pair>, heap: map<Ptr, Entry>, chain: seq<Ptr>)
  {
    Resolved(slots, heap) &&
    forall i :: 0 <= i < |slots| && slots[i].node != NULL ==> slots[i].node in chain
  }

  /** The slots from the cursor on are empty, as add_cache_node leaves them. */
  ghost predicate Packed(w: World)
  {
    forall i :: w.count as nat <= i < |w.slots| ==> w.slots[i].node == NULL
  }

  /** What the cache bookkeeping may change: weights, `cached` flags, the
      slots (six of them) and the cursor; the list, the payloads, the clock
      and the last accessed node stay. */
  ghost predicate Rewoven(w: World, w': World)
  {
    AllocManager.Retagged(w.heap, w'.heap) && |w'.slots| == |w.slots| &&
    w'.tto == w.tto && w'.lastAccess == w.lastAccess
  }

  // ------------------------------------------------------------ the sweep

  /** __pri_list_reset_weight__ from position i: every later node gets weight 0. */
  function ResetFrom(heap: map<Ptr, Entry>, chain: seq<Ptr>, i: nat): (h: map<Ptr, Entry>)
    requires forall j :: i <= j < |chain| ==> chain[j] in heap
    ensures AllocManager.Retagged(heap, h)
    decreases |chain| - i
  {
    if i >= |chain| then heap else ResetFrom(Weighed(heap, chain[i], 0), chain, i + 1)
  }

  lemma WeighedRetagged(h0: map<Ptr, Entry>, h: map<Ptr, Entry>, p: Ptr, v: u8)
    requires AllocManager.Retagged(h0, h) && p in h
    ensures AllocManager.Retagged(h0, Weighed(h, p, v))
  {
    assert AllocManager.Retagged(h, Weighed(h, p, v));
    AllocManager.RetaggedTrans(h0, h, Weighed(h, p, v));
  }

  /** The sweep's first loop from slot i: each slot's node gets weight 0.
      As written an empty slot is dereferenced (undefined behaviour, None);
      the `fixed` loop skips it. */
  function ZeroSlots(heap: map<Ptr, Entry>, slots: seq<Pair>, i: nat, fixed: bool): (r: Option<map<Ptr, Entry>>)
    ensures r.Some? ==> AllocManager.Retagged(heap, r.value)
    decreases |slots| - i
  {
    if i >= |slots| then Some(heap)
    else if slots[i].node == NULL || slots[i].node !in heap then
      (if fixed then ZeroSlots(heap, slots, i + 1, fixed) else None)
    else ZeroSlots(Weighed(heap, slots[i].node, 0), slots, i + 1, fixed)
  }

  /** The sweep's second loop from position i of the list: every node whose
      weight is below RECACHE_BELOW evicts the node of slot `count_cache`
      (unsetting its `cached`), takes that slot keyed by its data, gets
      weight 0 and `cached`, and advances the cursor.

      As written the cursor is reset only once it equals 6, after the slot
      at index 6 has already been read: a placement with the cursor at 6
      is undefined behaviour. The `fixed` walk keeps the cursor below 6. */
  function WalkFrom(w: World, chain: seq<Ptr>, i: nat, fixed: bool): (r: Outcome<World>)
    requires |w.slots| == CACHE_SLOTS
    requires forall j :: i <= j < |chain| ==> chain[j] in w.heap
    ensures r.Returned? ==> Rewoven(w, r.value)
    decreases |chain| - i
  {
    if i >= |chain| then Returned(w)
    else
      match WalkStep(w, chain[i], fixed)
      case Crashed(f) => Crashed(f)
      case Returned(w') => WalkFrom(w', chain, i + 1, fixed)
  }

  /** The walk at one node n. */
  function WalkStep(w: World, n: Ptr, fixed: bool): (r: Outcome<World>)
    requires |w.slots| == CACHE_SLOTS && n in w.heap
    ensures r.Returned? ==> Rewoven(w, r.value)
  {
    if w.heap[n].block.weight >= RECACHE_BELOW then Returned(w)
    else if !fixed && w.count as nat >= CACHE_SLOTS then Crashed(UndefinedBehaviour)
    else
      var c := if fixed then w.count as nat % CACHE_SLOTS else w.count as nat;
      var prev := w.slots[c].node;
      if prev != NULL && prev !in w.heap then Crashed(UndefinedBehaviour)
      else
        // as written the cursor is below 6 here, so `count_cache == 6 ? 0 : ++` only increments
        Returned(Place(w, n, c, if fixed then ((c + 1) % CACHE_SLOTS) as u8 else w.count + 1))
  }

  /** One placement of the walk: the node of slot c loses `cached`, node n
      takes slot c keyed by its data with weight 0 and `cached`, and the
      cursor moves on. */
  function Place(w: World, n: Ptr, c: nat, cursor: u8): (w': World)
    requires c < |w.slots| && n in w.heap
    requires w.slots[c].node != NULL ==> w.slots[c].node in w.heap
    ensures Rewoven(w, w') && w'.count == cursor
    ensures w'.slots == w.slots[c := Pair(w.heap[n].block.data, n)] && w'.heap[n].block.weight == 0
  {
    var prev := w.slots[c].node;
    var h1 := if prev != NULL then AllocManager.Flag(w.heap, prev, false) else w.heap;
    var h2 := Enlisted(h1, n);
    w.(heap := h2, slots := w.slots[c := Pair(h2[n].block.data, n)], count := cursor)
  }

  /** __pri_list_caching__ on the list `chain` (rooted at the head): with
      caching off or locked, only the weights behind the head are reset; a
      list without nodes behind the head is left alone; otherwise the two
      loops above run. */
  function SweepOf(w: World, chain: seq<Ptr>, caching: bool, locked: bool, fixed: bool): (r: Outcome<World>)
    requires Linked(w.heap, chain) && |w.slots| == CACHE_SLOTS
    ensures r.Returned? ==> Rewoven(w, r.value)
  {
    if !caching || locked then Returned(w.(heap := ResetFrom(w.heap, chain, 1)))
    else if w.heap[chain[0]].next == NULL then Returned(w)
    else match ZeroSlots(w.heap, w.slots, 0, fixed)
      case None => Crashed(UndefinedBehaviour)
      case Some(h) => WalkFrom(w.(heap := h), chain, 0, fixed)
  }

  // ------------------------------------------------------- weight and clock

  /** inc_weight: a node below WEIGHT_CAP gains one, otherwise the list is swept. */
  function IncWeightOf(w: World, chain: seq<Ptr>, n: Ptr, caching: bool, locked: bool, fixed: bool): (r: Outcome<World>)
    requires Linked(w.heap, chain) && |w.slots| == CACHE_SLOTS && n in w.heap
    ensures r.Returned? ==> Rewoven(w, r.value)
  {
    if w.heap[n].block.weight < WEIGHT_CAP then Returned(w.(heap := Weighed(w.heap, n, w.heap[n].block.weight + 1)))
    else SweepOf(w, chain, caching, locked, fixed)
  }

  /** inc_time: at TTO_LIMIT the clock restarts at 0 and the list is swept;
      then the clock advances (a uint8_t). */
  function IncTimeOf(w: World, chain: seq<Ptr>, caching: bool, locked: bool, fixed: bool): (r: Outcome<World>)
    requires Linked(w.heap, chain) && |w.slots| == CACHE_SLOTS
    ensures r.Returned? ==> AllocManager.Retagged(w.heap, r.value.heap) && |r.value.slots| == CACHE_SLOTS && r.value.lastAccess == w.lastAccess
    ensures r.Returned? ==> r.value.tto == if w.tto == TTO_LIMIT then 1 else WrapInc8(w.tto)
  {
    if w.tto == TTO_LIMIT then
      match SweepOf(w.(tto := 0), chain, caching, locked, fixed)
        case Crashed(f) => Crashed(f)
        case Returned(w1) => Returned(w1.(tto := WrapInc8(w1.tto)))
    else Returned(w.(tto := WrapInc8(w.tto)))
  }

  /** Retagging changes no link, so it keeps a list linked. */
  lemma LinkedRetagged(h1: map<Ptr, Entry>, h2: map<Ptr, Entry>, chain: seq<Ptr>)
    requires Linked(h1, chain) && AllocManager.Retagged(h1, h2)
    ensures Linked(h2, chain)
  {
    LinkedElim(h1, chain);
    assert |h2| == |h2.Keys| == |h1.Keys| == |h1|;
    forall i | 0 <= i < |chain|
      ensures chain[i] in h2 && h2[chain[i]].isHead == h1[chain[i]].isHead
      ensures h2[chain[i]].next == h1[chain[i]].next && h2[chain[i]].previous == h1[chain[i]].previous
    {
      var e1, e2 := h1[chain[i]], h2[chain[i]];
      assert e2.(block := AllocManager.Untagged(e2.block)) == e1.(block := AllocManager.Untagged(e1.block));
    }
    LinkedIntro(h2, chain);
  }

  // ------------------------------------------------------------- the cache

  /** The first slot from i keyed by `key`. */
  function FirstKey(slots: seq<Pair>, key: Ptr, i: nat): (r: Option<nat>)
    ensures r.Some? ==> i <= r.value < |slots| && slots[r.value].key == key
    ensures r.Some? ==> forall j :: i <= j < r.value ==> slots[j].key != key
    ensures r.None? ==> forall j :: i <= j < |slots| ==> slots[j].key != key
    decreases |slots| - i
  {
    if i >= |slots| then None
    else if slots[i].key == key then Some(i)
    else FirstKey(slots, key, i + 1)
  }

  /** get_caching_node: with caching on, the node of the first slot keyed by
      `key`; NULL otherwise. */
  function CachedNode(slots: seq<Pair>, key: Ptr, caching: bool): (n: Ptr)
  {
    if !caching then NULL
    else match FirstKey(slots, key, 0)
      case None => NULL
      case Some(i) => slots[i].node
  }

  /** get_caching_node_by_id from slot i: the first slot whose node has block
      id `id`. As written every slot's node is dereferenced, an empty one
      included (undefined behaviour); the `fixed` scan skips empty slots. */
  function CachedById(w: World, id: u16, i: nat, fixed: bool): (r: Outcome<Ptr>)
    decreases |w.slots| - i
  {
    if i >= |w.slots| then Returned(NULL)
    else
      var n := w.slots[i].node;
      if n == NULL || n !in w.heap then (if fixed then CachedById(w, id, i + 1, fixed) else Crashed(UndefinedBehaviour))
      else if w.heap[n].block.blockId == id then Returned(n)
      else CachedById(w, id, i + 1, fixed)
  }

  /** remove_cache_node: every slot naming `n` is emptied. */
  function Uncached(slots: seq<Pair>, n: Ptr): (s: seq<Pair>)
  {
    seq(|slots|, i requires 0 <= i < |slots| => if slots[i].node == n then EMPTY_PAIR else slots[i])
  }

  /** cache_clear's loop from slot i: every keyed slot's node loses `cached`
      and the slot is emptied (a keyed slot without a live node is undefined
      behaviour). */
  function ClearFrom(w: World, i: nat): (r: Outcome<World>)
    decreases |w.slots| - i
  {
    if i >= |w.slots| then Returned(w)
    else if w.slots[i].key == NULL then ClearFrom(w, i + 1)
    else
      var n := w.slots[i].node;
      if n == NULL || n !in w.heap then Crashed(UndefinedBehaviour)
      else ClearFrom(w.(heap := AllocManager.Flag(w.heap, n, false), slots := w.slots[i := EMPTY_PAIR]), i + 1)
  }

  /** cache_clear: the loop above, then the cursor back to 0. */
  function ClearOf(w: World): (r: Outcome<World>)
  {
    match ClearFrom(w, 0)
      case Crashed(f) => Crashed(f)
      case Returned(w1) => Returned(w1.(count := 0))
  }

  // -------------------------------------------------------------- lookups

  /** A lookup's hit at position k of the list: inc_weight, then inc_time,
      then last_access_node. */
  function VisitOf(w: World, chain: seq<Ptr>, k: nat, caching: bool, locked: bool, fixed: bool): (r: Outcome<(Ptr, World)>)
    requires Linked(w.heap, chain) && |w.slots| == CACHE_SLOTS && k < |chain|
    ensures r.Returned? ==> r.value.0 == chain[k] && r.value.1.lastAccess == chain[k]
    ensures r.Returned? ==> AllocManager.Retagged(w.heap, r.value.1.heap) && |r.value.1.slots| == CACHE_SLOTS
  {
    var n := chain[k];
    match IncWeightOf(w, chain, n, caching, locked, fixed)
      case Crashed(f) => Crashed(f)
      case Returned(w1) =>
        LinkedRetagged(w.heap, w1.heap, chain);
        match IncTimeOf(w1, chain, caching, locked, fixed)
          case Crashed(f) => Crashed(f)
          case Returned(w2) => Returned((n, w2.(lastAccess := n)))
  }

  /** list_query: a cache hit is returned as it is; otherwise the first node
      of the list (the head included) holding `data` is visited, and NULL is
      returned when there is none. */
  function QueryOf(w: World, chain: seq<Ptr>, data: Ptr, caching: bool, locked: bool, fixed: bool): (r: Outcome<(Ptr, World)>)
    requires Linked(w.heap, chain) && |w.slots| == CACHE_SLOTS
    ensures r.Returned? ==> AllocManager.Retagged(w.heap, r.value.1.heap) && |r.value.1.slots| == CACHE_SLOTS
  {
    var cag := CachedNode(w.slots, data, caching);
    if cag != NULL then Returned((cag, w))
    else ScanOf(w, chain, DataIs(data), caching, locked, fixed)
  }

  /** The walk of list_query and list_query_by_id from the head: the first
      node whose payload satisfies `p` is visited; NULL when there is none. */
  function ScanOf(w: World, chain: seq<Ptr>, p: Block -> bool, caching: bool, locked: bool, fixed: bool): (r: Outcome<(Ptr, World)>)
    requires Linked(w.heap, chain) && |w.slots| == CACHE_SLOTS
    ensures r.Returned? ==> AllocManager.Retagged(w.heap, r.value.1.heap) && |r.value.1.slots| == CACHE_SLOTS
  {
    match FirstMatch(Project(w.heap, chain), 0, p)
      case None => Returned((NULL, w))
      case Some(k) => VisitOf(w, chain, k, caching, locked, fixed)
  }

  /** list_query_by_id: as list_query, keyed by block id. */
  function QueryByIdOf(w: World, chain: seq<Ptr>, id: u16, caching: bool, locked: bool, fixed: bool): (r: Outcome<(Ptr, World)>)
    requires Linked(w.heap, chain) && |w.slots| == CACHE_SLOTS
    ensures r.Returned? ==> AllocManager.Retagged(w.heap, r.value.1.heap) && |r.value.1.slots| == CACHE_SLOTS
  {
    match (if caching then CachedById(w, id, 0, fixed) else Returned(NULL))
      case Crashed(f) => Crashed(f)
      case Returned(cag) =>
        if cag != NULL then Returned((cag, w))
        else ScanOf(w, chain, IdIs(id), caching, locked, fixed)
  }

  /** add_cache_node: with caching on and the cursor's slot empty, `ptr` is
      looked up and, when found, its node takes the cursor's slot (keyed by
      `ptr`), gets weight 0 and `cached`, and the cursor advances. As written
      the cursor's slot is read before the cursor is ever wrapped, so a call
      with the cursor at 6 reads past the table (undefined behaviour); the
      `fixed` version wraps the cursor modulo 6. */
  function AddCacheOf(w: World, chain: seq<Ptr>, ptr: Ptr, caching: bool, locked: bool, fixed: bool): (r: Outcome<(bool, World)>)
    requires Linked(w.heap, chain) && |w.slots| == CACHE_SLOTS
  {
    if !caching then Returned((false, w))
    else if !fixed && w.count as nat >= CACHE_SLOTS then Crashed(UndefinedBehaviour)
    else if w.slots[w.count as nat % CACHE_SLOTS].node != NULL then Returned((false, w))
    else match QueryOf(w, chain, ptr, caching, locked, fixed)
      case Crashed(f) => Crashed(f)
      case Returned(found) => FillOf(found.1, found.0, ptr, fixed)
  }

  /** add_cache_node after its lookup returned `qp` in the world w1: NULL
      adds nothing; otherwise `qp` takes the cursor's slot keyed by `ptr`,
      gets weight 0 and `cached`, and the cursor advances (as written, a
      cursor moved to 6 by the lookup's sweep is written past the table). */
  function FillOf(w1: World, qp: Ptr, ptr: Ptr, fixed: bool): (r: Outcome<(bool, World)>)
    requires |w1.slots| == CACHE_SLOTS
  {
    if qp == NULL then Returned((false, w1))
    else if (!fixed && w1.count as nat >= CACHE_SLOTS) || qp !in w1.heap then Crashed(UndefinedBehaviour)
    else
      var c := w1.count as nat % CACHE_SLOTS;
      var cursor: u8 := if fixed then ((c + 1) % CACHE_SLOTS) as u8 else w1.count + 1;
      Returned((true, w1.(heap := Enlisted(w1.heap, qp), slots := w1.slots[c := Pair(ptr, qp)], count := cursor)))
  }

  // ------------------------------------------------------ sweep properties

  /** No slot is occupied (the table as the file initialises it). */
  ghost predicate AllEmpty(slots: seq<Pair>)
  {
    forall i :: 0 <= i < |slots| ==> slots[i] == EMPTY_PAIR
  }

  /** Retagging keeps every payload's data, so it keeps the slots resolved. */
  lemma ResolvedRetagged(slots: seq<Pair>, h1: map<Ptr, Entry>, h2: map<Ptr, Entry>)
    requires Resolved(slots, h1) && AllocManager.Retagged(h1, h2)
    ensures Resolved(slots, h2)
  {
    forall i | 0 <= i < |slots| && slots[i].node != NULL
      ensures slots[i].node in h2 && h2[slots[i].node].block.data == slots[i].key
    {
      var e1, e2 := h1[slots[i].node], h2[slots[i].node];
      assert e2.(block := AllocManager.Untagged(e2.block)) == e1.(block := AllocManager.Untagged(e1.block));
    }
  }

  /** Retagging keeps the slots live. */
  lemma LiveRetagged(slots: seq<Pair>, h1: map<Ptr, Entry>, h2: map<Ptr, Entry>, chain: seq<Ptr>)
    requires Live(slots, h1, chain) && AllocManager.Retagged(h1, h2)
    ensures Live(slots, h2, chain)
  {
    ResolvedRetagged(slots, h1, h2);
  }

  /** As written, an empty slot anywhere from i makes the first loop fault. */
  lemma {:induction false} ZeroSlotsFaults(heap: map<Ptr, Entry>, slots: seq<Pair>, i: nat, j: nat)
    requires i <= j < |slots| && slots[j].node == NULL
    ensures ZeroSlots(heap, slots, i, false).None?
    decreases j - i
  {
    if i < j && slots[i].node != NULL && slots[i].node in heap {
      ZeroSlotsFaults(Weighed(heap, slots[i].node, 0), slots, i + 1, j);
    }
  }

  /** With every slot from i occupied, the first loop leaves each slot's node
      at weight 0 and never raises a weight from 0. */
  lemma {:induction false} ZeroSlotsZeroes(heap: map<Ptr, Entry>, slots: seq<Pair>, i: nat)
    requires forall j :: i <= j < |slots| ==> slots[j].node != NULL && slots[j].node in heap
    ensures ZeroSlots(heap, slots, i, false).Some?
    ensures forall j :: i <= j < |slots| ==> ZeroSlots(heap, slots, i, false).value[slots[j].node].block.weight == 0
    ensures forall p :: p in heap && heap[p].block.weight == 0 ==> ZeroSlots(heap, slots, i, false).value[p].block.weight == 0
    decreases |slots| - i
  {
    if i < |slots| {
      ZeroSlotsZeroes(Weighed(heap, slots[i].node, 0), slots, i + 1);
    }
  }

  /** As written, with the cursor at 6 the walk faults on the first node it
      would cache. */
  lemma {:induction false} WalkFaults(w: World, chain: seq<Ptr>, i: nat, j: nat)
    requires |w.slots| == CACHE_SLOTS && forall l :: i <= l < |chain| ==> chain[l] in w.heap
    requires w.count as nat >= CACHE_SLOTS && i <= j < |chain| && w.heap[chain[j]].block.weight < RECACHE_BELOW
    ensures WalkFrom(w, chain, i, false).Crashed?
    decreases j - i
  {
    if w.heap[chain[i]].block.weight >= RECACHE_BELOW {
      WalkFaults(w, chain, i + 1, j);
    }
  }

  /** The sweep as written always faults once there is a node behind the head
      and caching is on: an empty slot at or after the cursor is
      dereferenced by the first loop, and with all six slots full the cursor
      is 6 and the node of slot 0, now at weight 0, is cached through slot 6. */
  lemma SweepFaults(w: World, chain: seq<Ptr>)
    requires Linked(w.heap, chain) && |chain| >= 2 && |w.slots| == CACHE_SLOTS
    requires Live(w.slots, w.heap, chain) && Packed(w) && w.count as nat <= CACHE_SLOTS
    ensures SweepOf(w, chain, true, false, false).Crashed?
  {
    LinkAt(w.heap, chain, 0);
    LinkAt(w.heap, chain, 1);
    if w.count as nat < CACHE_SLOTS {
      ZeroSlotsFaults(w.heap, w.slots, 0, w.count as nat);
    } else if j :| 0 <= j < CACHE_SLOTS && w.slots[j].node == NULL {
      ZeroSlotsFaults(w.heap, w.slots, 0, j);
    } else {
      ZeroSlotsZeroes(w.heap, w.slots, 0);
      var h := ZeroSlots(w.heap, w.slots, 0, false).value;
      var k := IndexOf(chain, w.slots[0].node);
      WalkFaults(w.(heap := h), chain, 0, k);
    }
  }

  /** The fixed first loop never faults. */
  lemma {:induction false} ZeroSlotsFixedSafe(heap: map<Ptr, Entry>, slots: seq<Pair>, i: nat)
    ensures ZeroSlots(heap, slots, i, true).Some?
    decreases |slots| - i
  {
    if i < |slots| {
      if slots[i].node == NULL || slots[i].node !in heap {
        ZeroSlotsFixedSafe(heap, slots, i + 1);
      } else {
        ZeroSlotsFixedSafe(Weighed(heap, slots[i].node, 0), slots, i + 1);
      }
    }
  }

  /** What every cache operation keeps, as written or fixed: the slots stay
      live and the cursor never passes 6; the fixed operations also keep a
      cursor below 6 there. */
  ghost predicate Kept(w: World, w': World, chain: seq<Ptr>, fixed: bool)
  {
    Live(w'.slots, w'.heap, chain) &&
    (w.count as nat <= CACHE_SLOTS ==> w'.count as nat <= CACHE_SLOTS) &&
    (fixed && w.count as nat < CACHE_SLOTS ==> w'.count as nat < CACHE_SLOTS)
  }

  /** The walk keeps the cache invariant; the fixed walk never faults. */
  lemma {:induction false} WalkSafe(w: World, chain: seq<Ptr>, i: nat, fixed: bool)
    requires |w.slots| == CACHE_SLOTS && (forall l :: i <= l < |chain| ==> chain[l] != NULL && chain[l] in w.heap)
    requires Live(w.slots, w.heap, chain)
    ensures fixed ==> WalkFrom(w, chain, i, fixed).Returned?
    ensures WalkFrom(w, chain, i, fixed).Returned? ==> Kept(w, WalkFrom(w, chain, i, fixed).value, chain, fixed)
    decreases |chain| - i
  {
    if i < |chain| {
      WalkStepSafe(w, chain, chain[i], fixed);
      match WalkStep(w, chain[i], fixed)
      case Crashed(_) =>
      case Returned(w') =>
        WalkSafe(w', chain, i + 1, fixed);
    }
  }

  /** One step of the walk keeps the cache invariant; the fixed step never faults. */
  lemma WalkStepSafe(w: World, chain: seq<Ptr>, n: Ptr, fixed: bool)
    requires |w.slots| == CACHE_SLOTS && n != NULL && n in chain && n in w.heap && Live(w.slots, w.heap, chain)
    ensures fixed ==> WalkStep(w, n, fixed).Returned?
    ensures WalkStep(w, n, fixed).Returned? ==> Kept(w, WalkStep(w, n, fixed).value, chain, fixed)
  {
    if w.heap[n].block.weight < RECACHE_BELOW && (fixed || w.count as nat < CACHE_SLOTS) {
      var c := if fixed then w.count as nat % CACHE_SLOTS else w.count as nat;
      var cursor: u8 := if fixed then ((c + 1) % CACHE_SLOTS) as u8 else w.count + 1;
      var w' := Place(w, n, c, cursor);
      LiveRetagged(w.slots, w.heap, w'.heap, chain);
      var e, e' := w.heap[n], w'.heap[n];
      assert e'.(block := AllocManager.Untagged(e'.block)) == e.(block := AllocManager.Untagged(e.block));
    }
  }

  /** Every record of a linked list is present and none is NULL. */
  lemma LinkedNonNull(heap: map<Ptr, Entry>, chain: seq<Ptr>)
    requires Linked(heap, chain)
    ensures forall i :: 0 <= i < |chain| ==> chain[i] != NULL && chain[i] in heap
  {
    LinkedElim(heap, chain);
  }

  /** The sweep keeps the cache invariant; the fixed sweep never faults. */
  lemma SweepSafe(w: World, chain: seq<Ptr>, caching: bool, locked: bool, fixed: bool)
    requires Linked(w.heap, chain) && |w.slots| == CACHE_SLOTS && Live(w.slots, w.heap, chain)
    ensures fixed ==> SweepOf(w, chain, caching, locked, fixed).Returned?
    ensures SweepOf(w, chain, caching, locked, fixed).Returned? ==> Kept(w, SweepOf(w, chain, caching, locked, fixed).value, chain, fixed)
  {
    if !caching || locked {
      LiveRetagged(w.slots, w.heap, ResetFrom(w.heap, chain, 1), chain);
    } else if w.heap[chain[0]].next != NULL {
      if fixed {
        ZeroSlotsFixedSafe(w.heap, w.slots, 0);
      }
      if ZeroSlots(w.heap, w.slots, 0, fixed).Some? {
        var h := ZeroSlots(w.heap, w.slots, 0, fixed).value;
        LiveRetagged(w.slots, w.heap, h, chain);
        LinkedNonNull(w.heap, chain);
        assert SweepOf(w, chain, caching, locked, fixed) == WalkFrom(w.(heap := h), chain, 0, fixed);
        WalkSafe(w.(heap := h), chain, 0, fixed);
      }
    }
  }

  /** With the cursor in range and the slots packed, the sweep as written
      returns only when it changes nothing about the cache: it faults
      whenever it would run its two loops. */
  lemma SweepKeepsCache(w: World, chain: seq<Ptr>)
    requires Linked(w.heap, chain) && |w.slots| == CACHE_SLOTS
    requires Live(w.slots, w.heap, chain) && Packed(w) && w.count as nat <= CACHE_SLOTS
    ensures SweepOf(w, chain, true, false, false).Returned? ==> SweepOf(w, chain, true, false, false).value == w
  {
    if |chain| >= 2 {
      SweepFaults(w, chain);
    } else {
      assert chain[|chain| - 1] == chain[0];
    }
  }

  // ----------------------------------------------------- lookup properties

  /** A cache hit on live slots is a node of the list holding the key. */
  lemma CachedNodeLive(slots: seq<Pair>, heap: map<Ptr, Entry>, chain: seq<Ptr>, key: Ptr, caching: bool)
    requires Live(slots, heap, chain)
    ensures var n := CachedNode(slots, key, caching);
      n != NULL ==> n in chain && n in heap && heap[n].block.data == key
  {
    if caching && FirstKey(slots, key, 0).Some? {
      var i := FirstKey(slots, key, 0).value;
      assert slots[i].node != NULL ==> slots[i].node in chain;
    }
  }

  /** With live slots, list_query returns a node of the list holding `data`,
      and returns NULL exactly when no node of the list holds `data`. */
  lemma QueryFinds(w: World, chain: seq<Ptr>, data: Ptr, caching: bool, locked: bool, fixed: bool)
    requires Linked(w.heap, chain) && |w.slots| == CACHE_SLOTS && Live(w.slots, w.heap, chain)
    requires QueryOf(w, chain, data, caching, locked, fixed).Returned?
    ensures var n := QueryOf(w, chain, data, caching, locked, fixed).value.0;
      (n != NULL ==> n in chain && w.heap[n].block.data == data) &&
      (n == NULL <==> forall j :: 0 <= j < |chain| ==> w.heap[chain[j]].block.data != data)
  {
    var n := QueryOf(w, chain, data, caching, locked, fixed).value.0;
    CachedNodeLive(w.slots, w.heap, chain, data, caching);
    var bs := Project(w.heap, chain);
    if CachedNode(w.slots, data, caching) != NULL {
      var j := IndexOf(chain, n);
      assert w.heap[chain[j]].block.data == data;
    } else if FirstMatch(bs, 0, DataIs(data)).Some? {
      var k := FirstMatch(bs, 0, DataIs(data)).value;
      LinkAt(w.heap, chain, k);
      assert bs[k].data == data;
    } else {
      forall j | 0 <= j < |chain|
        ensures w.heap[chain[j]].block.data != data
      {
        assert !DataIs(data)(bs[j]);
      }
    }
  }

  /** A lookup that misses the cache, finds `data` first at position k, and
      triggers neither sweep bumps that node's weight and the clock, records
      the node as last accessed, and changes nothing else. */
  lemma QueryBumps(w: World, chain: seq<Ptr>, data: Ptr, caching: bool, locked: bool, fixed: bool, k: nat)
    requires Linked(w.heap, chain) && |w.slots| == CACHE_SLOTS && CachedNode(w.slots, data, caching) == NULL
    requires k < |chain| && w.heap[chain[k]].block.data == data
    requires forall j :: 0 <= j < k ==> w.heap[chain[j]].block.data != data
    requires w.heap[chain[k]].block.weight < WEIGHT_CAP && w.tto != TTO_LIMIT
    ensures QueryOf(w, chain, data, caching, locked, fixed) ==
      Returned((chain[k], w.(heap := Weighed(w.heap, chain[k], w.heap[chain[k]].block.weight + 1),
                             tto := WrapInc8(w.tto), lastAccess := chain[k])))
  {
    var bs := Project(w.heap, chain);
    assert DataIs(data)(bs[k]);
    var r := FirstMatch(bs, 0, DataIs(data));
    assert r.Some? && r.value <= k;
    VisitBumps(w, chain, k, caching, locked, fixed);
  }

  /** A visit that triggers neither sweep bumps the node's weight and the
      clock and records the node as last accessed. */
  lemma VisitBumps(w: World, chain: seq<Ptr>, k: nat, caching: bool, locked: bool, fixed: bool)
    requires Linked(w.heap, chain) && |w.slots| == CACHE_SLOTS && k < |chain|
    requires w.heap[chain[k]].block.weight < WEIGHT_CAP && w.tto != TTO_LIMIT
    ensures VisitOf(w, chain, k, caching, locked, fixed) ==
      Returned((chain[k], w.(heap := Weighed(w.heap, chain[k], w.heap[chain[k]].block.weight + 1),
                             tto := WrapInc8(w.tto), lastAccess := chain[k])))
  {
    var n := chain[k];
    var w1 := w.(heap := Weighed(w.heap, n, w.heap[n].block.weight + 1));
    assert IncWeightOf(w, chain, n, caching, locked, fixed) == Returned(w1);
    LinkedRetagged(w.heap, w1.heap, chain);
  }

  /** A lookup that finds its node when no slot is occupied, with caching on
      and unlocked, faults (as written) as soon as it triggers a sweep: when
      the node's weight has reached WEIGHT_CAP, or the clock TTO_LIMIT, and
      the list holds a node behind its head. Every lookup through the
      library's own entry points is of this kind, since nothing there fills
      the cache: a block looked up sixty-one times in a row (or any lookup
      that finds a block when the clock is at 127) faults. */
  lemma QueryFaults(w: World, chain: seq<Ptr>, data: Ptr, k: nat)
    requires Linked(w.heap, chain) && |chain| >= 2 && |w.slots| == CACHE_SLOTS && AllEmpty(w.slots)
    requires k < |chain| && w.heap[chain[k]].block.data == data
    requires forall j :: 0 <= j < k ==> w.heap[chain[j]].block.data != data
    requires w.heap[chain[k]].block.weight >= WEIGHT_CAP || w.tto == TTO_LIMIT
    ensures QueryOf(w, chain, data, true, false, false).Crashed?
  {
    assert w.slots[0] == EMPTY_PAIR;
    assert CachedNode(w.slots, data, true) == NULL;
    var bs := Project(w.heap, chain);
    assert DataIs(data)(bs[k]);
    var r := FirstMatch(bs, 0, DataIs(data));
    assert r.Some? && r.value <= k;
    VisitFaults(w, chain, k);
  }

  /** As written, visiting a node when no slot is occupied faults whenever
      the visit sweeps a list with a node behind its head. */
  lemma VisitFaults(w: World, chain: seq<Ptr>, k: nat)
    requires Linked(w.heap, chain) && |chain| >= 2 && |w.slots| == CACHE_SLOTS && AllEmpty(w.slots)
    requires k < |chain| && (w.heap[chain[k]].block.weight >= WEIGHT_CAP || w.tto == TTO_LIMIT)
    ensures VisitOf(w, chain, k, true, false, false).Crashed?
  {
    var n := chain[k];
    if w.heap[n].block.weight < WEIGHT_CAP {
      var w1 := w.(heap := Weighed(w.heap, n, w.heap[n].block.weight + 1));
      assert IncWeightOf(w, chain, n, true, false, false) == Returned(w1);
      LinkedRetagged(w.heap, w1.heap, chain);
      SweepEmptyFaults(w1.(tto := 0), chain);
    } else {
      SweepEmptyFaults(w, chain);
    }
  }

  /** As written, a sweep of a list with a node behind its head faults when
      no slot is occupied. */
  lemma SweepEmptyFaults(w: World, chain: seq<Ptr>)
    requires Linked(w.heap, chain) && |chain| >= 2 && |w.slots| == CACHE_SLOTS && AllEmpty(w.slots)
    ensures SweepOf(w, chain, true, false, false).Crashed?
  {
    assert w.slots[0] == EMPTY_PAIR;
    LinkAt(w.heap, chain, 0);
    LinkAt(w.heap, chain, 1);
    ZeroSlotsFaults(w.heap, w.slots, 0, 0);
  }

  /** As written, with the slots packed and the cursor in range, a lookup
      that returns has left the slots and the cursor as they were (any sweep
      it triggers either does nothing or faults), and the slots live. */
  lemma QueryKeepsCache(w: World, chain: seq<Ptr>, data: Ptr)
    requires Linked(w.heap, chain) && |w.slots| == CACHE_SLOTS
    requires Live(w.slots, w.heap, chain) && Packed(w) && w.count as nat <= CACHE_SLOTS
    requires QueryOf(w, chain, data, true, false, false).Returned?
    ensures var w' := QueryOf(w, chain, data, true, false, false).value.1;
      w'.slots == w.slots && w'.count == w.count && Live(w'.slots, w'.heap, chain)
  {
    var w' := QueryOf(w, chain, data, true, false, false).value.1;
    var bs := Project(w.heap, chain);
    if CachedNode(w.slots, data, true) == NULL && FirstMatch(bs, 0, DataIs(data)).Some? {
      var n := chain[FirstMatch(bs, 0, DataIs(data)).value];
      SweepKeepsCache(w, chain);
      var w1 := IncWeightOf(w, chain, n, true, false, false).value;
      assert w1.slots == w.slots && w1.count == w.count;
      LinkedRetagged(w.heap, w1.heap, chain);
      LiveRetagged(w.slots, w.heap, w1.heap, chain);
      SweepKeepsCache(w1.(tto := 0), chain);
    }
    LiveRetagged(w.slots, w.heap, w'.heap, chain);
  }

  /** As written, a successful add_cache_node fills the cursor's slot and
      advances the cursor by one, never wrapping it; with the slots packed
      and live it keeps them so. After six successes from an empty table the
      cursor is 6 and the next call faults (AddCacheOverruns). */
  lemma AddCacheAdvances(w: World, chain: seq<Ptr>, ptr: Ptr, locked: bool)
    requires Linked(w.heap, chain) && |w.slots| == CACHE_SLOTS && !locked
    requires Live(w.slots, w.heap, chain) && Packed(w) && w.count as nat <= CACHE_SLOTS
    requires AddCacheOf(w, chain, ptr, true, locked, false).Returned?
    ensures var (added, w') := AddCacheOf(w, chain, ptr, true, locked, false).value;
      Live(w'.slots, w'.heap, chain) && Packed(w') && |w'.slots| == CACHE_SLOTS &&
      w'.count == (if added then w.count + 1 else w.count) &&
      (added ==> w'.slots == w.slots[w.count := Pair(ptr, w'.slots[w.count].node)])
  {
    if w.slots[w.count].node == NULL {
      QueryKeepsCache(w, chain, ptr);
      QueryFinds(w, chain, ptr, true, false, false);
      var (qp, w1) := QueryOf(w, chain, ptr, true, false, false).value;
      assert AddCacheOf(w, chain, ptr, true, locked, false) == FillOf(w1, qp, ptr, false);
      FillAdvances(w, w1, chain, qp, ptr);
    }
  }

  /** As written, filling after a lookup that left the cache as it was. */
  lemma FillAdvances(w: World, w1: World, chain: seq<Ptr>, qp: Ptr, ptr: Ptr)
    requires |w.slots| == CACHE_SLOTS && Packed(w) && w.count as nat < CACHE_SLOTS && w.slots[w.count].node == NULL
    requires w1.slots == w.slots && w1.count == w.count
    requires Live(w1.slots, w1.heap, chain) && AllocManager.Retagged(w.heap, w1.heap)
    requires qp != NULL ==> qp in chain && qp in w.heap && w.heap[qp].block.data == ptr
    ensures FillOf(w1, qp, ptr, false).Returned?
    ensures var (added, w') := FillOf(w1, qp, ptr, false).value;
      Live(w'.slots, w'.heap, chain) && Packed(w') && |w'.slots| == CACHE_SLOTS &&
      w'.count == (if added then w.count + 1 else w.count) &&
      (added ==> w'.slots == w.slots[w.count := Pair(ptr, w'.slots[w.count].node)])
  {
    FillLive(w, w1, chain, qp, ptr, false);
  }

  /** As written, add_cache_node with the cursor at 6 reads past the table. */
  lemma AddCacheOverruns(w: World, chain: seq<Ptr>, ptr: Ptr, locked: bool)
    requires Linked(w.heap, chain) && |w.slots| == CACHE_SLOTS && w.count as nat == CACHE_SLOTS
    ensures AddCacheOf(w, chain, ptr, true, locked, false).Crashed?
  {
  }

  /** list_query keeps the cache invariant; the fixed lookup never faults. */
  lemma QuerySafe(w: World, chain: seq<Ptr>, data: Ptr, caching: bool, locked: bool, fixed: bool)
    requires Linked(w.heap, chain) && |w.slots| == CACHE_SLOTS && Live(w.slots, w.heap, chain)
    ensures fixed ==> QueryOf(w, chain, data, caching, locked, fixed).Returned?
    ensures QueryOf(w, chain, data, caching, locked, fixed).Returned? ==>
      Kept(w, QueryOf(w, chain, data, caching, locked, fixed).value.1, chain, fixed)
  {
    ScanSafe(w, chain, DataIs(data), caching, locked, fixed);
  }

  /** list_query_by_id keeps the cache invariant; the fixed lookup never faults. */
  lemma QueryByIdSafe(w: World, chain: seq<Ptr>, id: u16, caching: bool, locked: bool, fixed: bool)
    requires Linked(w.heap, chain) && |w.slots| == CACHE_SLOTS && Live(w.slots, w.heap, chain)
    ensures fixed ==> QueryByIdOf(w, chain, id, caching, locked, fixed).Returned?
    ensures QueryByIdOf(w, chain, id, caching, locked, fixed).Returned? ==>
      Kept(w, QueryByIdOf(w, chain, id, caching, locked, fixed).value.1, chain, fixed)
  {
    if fixed {
      CachedByIdFixed(w, id, 0);
    }
    ScanSafe(w, chain, IdIs(id), caching, locked, fixed);
  }

  /** The walk of a lookup keeps the cache invariant; the fixed walk never faults. */
  lemma ScanSafe(w: World, chain: seq<Ptr>, p: Block -> bool, caching: bool, locked: bool, fixed: bool)
    requires Linked(w.heap, chain) && |w.slots| == CACHE_SLOTS && Live(w.slots, w.heap, chain)
    ensures fixed ==> ScanOf(w, chain, p, caching, locked, fixed).Returned?
    ensures ScanOf(w, chain, p, caching, locked, fixed).Returned? ==>
      Kept(w, ScanOf(w, chain, p, caching, locked, fixed).value.1, chain, fixed)
  {
    var bs := Project(w.heap, chain);
    if FirstMatch(bs, 0, p).Some? {
      VisitSafe(w, chain, FirstMatch(bs, 0, p).value, caching, locked, fixed);
    }
  }

  /** A visit keeps the cache invariant; the fixed visit never faults. */
  lemma VisitSafe(w: World, chain: seq<Ptr>, k: nat, caching: bool, locked: bool, fixed: bool)
    requires Linked(w.heap, chain) && |w.slots| == CACHE_SLOTS && Live(w.slots, w.heap, chain) && k < |chain|
    ensures fixed ==> VisitOf(w, chain, k, caching, locked, fixed).Returned?
    ensures VisitOf(w, chain, k, caching, locked, fixed).Returned? ==>
      Kept(w, VisitOf(w, chain, k, caching, locked, fixed).value.1, chain, fixed)
  {
    var n := chain[k];
    IncWeightSafe(w, chain, n, caching, locked, fixed);
    if IncWeightOf(w, chain, n, caching, locked, fixed).Returned? {
      var w1 := IncWeightOf(w, chain, n, caching, locked, fixed).value;
      LinkedRetagged(w.heap, w1.heap, chain);
      IncTimeSafe(w1, chain, caching, locked, fixed);
    }
  }

  /** inc_weight keeps the cache invariant; the fixed one never faults. */
  lemma IncWeightSafe(w: World, chain: seq<Ptr>, n: Ptr, caching: bool, locked: bool, fixed: bool)
    requires Linked(w.heap, chain) && |w.slots| == CACHE_SLOTS && Live(w.slots, w.heap, chain) && n in w.heap
    ensures fixed ==> IncWeightOf(w, chain, n, caching, locked, fixed).Returned?
    ensures IncWeightOf(w, chain, n, caching, locked, fixed).Returned? ==>
      Kept(w, IncWeightOf(w, chain, n, caching, locked, fixed).value, chain, fixed)
  {
    if w.heap[n].block.weight < WEIGHT_CAP {
      LiveRetagged(w.slots, w.heap, Weighed(w.heap, n, w.heap[n].block.weight + 1), chain);
    } else {
      SweepSafe(w, chain, caching, locked, fixed);
    }
  }

  /** inc_time keeps the cache invariant; the fixed one never faults. */
  lemma IncTimeSafe(w: World, chain: seq<Ptr>, caching: bool, locked: bool, fixed: bool)
    requires Linked(w.heap, chain) && |w.slots| == CACHE_SLOTS && Live(w.slots, w.heap, chain)
    ensures fixed ==> IncTimeOf(w, chain, caching, locked, fixed).Returned?
    ensures IncTimeOf(w, chain, caching, locked, fixed).Returned? ==>
      Kept(w, IncTimeOf(w, chain, caching, locked, fixed).value, chain, fixed)
  {
    if w.tto == TTO_LIMIT {
      SweepSafe(w.(tto := 0), chain, caching, locked, fixed);
    }
  }

  /** add_cache_node keeps the cache invariant; the fixed one never faults. */
  lemma AddCacheSafe(w: World, chain: seq<Ptr>, ptr: Ptr, caching: bool, locked: bool, fixed: bool)
    requires Linked(w.heap, chain) && |w.slots| == CACHE_SLOTS && Live(w.slots, w.heap, chain)
    ensures fixed ==> AddCacheOf(w, chain, ptr, caching, locked, fixed).Returned?
    ensures AddCacheOf(w, chain, ptr, caching, locked, fixed).Returned? ==>
      Kept(w, AddCacheOf(w, chain, ptr, caching, locked, fixed).value.1, chain, fixed)
  {
    if caching && (fixed || w.count as nat < CACHE_SLOTS) && w.slots[w.count as nat % CACHE_SLOTS].node == NULL {
      var q := QueryOf(w, chain, ptr, caching, locked, fixed);
      QuerySafe(w, chain, ptr, caching, locked, fixed);
      if q.Returned? {
        QueryFinds(w, chain, ptr, caching, locked, fixed);
        assert AddCacheOf(w, chain, ptr, caching, locked, fixed) == FillOf(q.value.1, q.value.0, ptr, fixed);
        FillSafe(w, q.value.1, chain, q.value.0, ptr, fixed);
      }
    }
  }

  /** The fill after a lookup that kept the cache invariant keeps it too;
      the fixed fill never faults. */
  lemma FillSafe(w: World, w1: World, chain: seq<Ptr>, qp: Ptr, ptr: Ptr, fixed: bool)
    requires |w1.slots| == CACHE_SLOTS && Kept(w, w1, chain, fixed) && AllocManager.Retagged(w.heap, w1.heap)
    requires qp != NULL ==> qp in chain && qp in w.heap && w.heap[qp].block.data == ptr
    ensures fixed ==> FillOf(w1, qp, ptr, fixed).Returned?
    ensures FillOf(w1, qp, ptr, fixed).Returned? ==> Kept(w, FillOf(w1, qp, ptr, fixed).value.1, chain, fixed)
  {
    if FillOf(w1, qp, ptr, fixed).Returned? {
      FillLive(w, w1, chain, qp, ptr, fixed);
    }
  }

  /** Filling a slot with a node the lookup found keeps the slots live. */
  lemma FillLive(w: World, w1: World, chain: seq<Ptr>, qp: Ptr, ptr: Ptr, fixed: bool)
    requires |w1.slots| == CACHE_SLOTS && Live(w1.slots, w1.heap, chain) && AllocManager.Retagged(w.heap, w1.heap)
    requires qp != NULL ==> qp in chain && qp in w.heap && w.heap[qp].block.data == ptr
    requires FillOf(w1, qp, ptr, fixed).Returned?
    ensures var w' := FillOf(w1, qp, ptr, fixed).value.1;
      Live(w'.slots, w'.heap, chain) && |w'.slots| == CACHE_SLOTS
  {
    if qp != NULL {
      var w' := FillOf(w1, qp, ptr, fixed).value.1;
      LiveRetagged(w1.slots, w1.heap, w'.heap, chain);
      var e1, e := w.heap[qp], w1.heap[qp];
      assert e.(block := AllocManager.Untagged(e.block)) == e1.(block := AllocManager.Untagged(e1.block));
    }
  }

  /** As written, the lookup by id faults on the first empty slot it meets
      before a match: with caching on, it returns only when every slot up to
      its hit is occupied, and returns NULL only when all six are occupied
      and none holds the id. */
  lemma {:induction false} CachedByIdFaults(w: World, id: u16, i: nat)
    requires CachedById(w, id, i, false).Returned?
    ensures var n := CachedById(w, id, i, false).value;
      (n == NULL ==> forall j :: i <= j < |w.slots| ==> w.slots[j].node != NULL && w.slots[j].node in w.heap && w.heap[w.slots[j].node].block.blockId != id) &&
      (n != NULL ==> n in w.heap && w.heap[n].block.blockId == id)
    decreases |w.slots| - i
  {
    if i < |w.slots| && w.slots[i].node != NULL && w.slots[i].node in w.heap && w.heap[w.slots[i].node].block.blockId != id {
      CachedByIdFaults(w, id, i + 1);
    }
  }

  /** The fixed lookup by id never faults; its hit is an occupied slot's node
      with that id, and it returns NULL only when no occupied slot has it. */
  lemma {:induction false} CachedByIdFixed(w: World, id: u16, i: nat)
    ensures CachedById(w, id, i, true).Returned?
    ensures var n := CachedById(w, id, i, true).value;
      (n == NULL ==> forall j :: i <= j < |w.slots| && w.slots[j].node != NULL && w.slots[j].node in w.heap ==> w.heap[w.slots[j].node].block.blockId != id) &&
      (n != NULL ==> n in w.heap && w.heap[n].block.blockId == id)
    decreases |w.slots| - i
  {
    if i < |w.slots| && !(w.slots[i].node != NULL && w.slots[i].node in w.heap && w.heap[w.slots[i].node].block.blockId == id) {
      CachedByIdFixed(w, id, i + 1);
    }
  }

  /** cache_clear on resolved slots never faults: every keyed slot is emptied
      and its node loses `cached`, slots keyed NULL are kept, and no flag is
      raised. */
  lemma {:induction false} ClearFromClears(w: World, i: nat)
    requires Resolved(w.slots, w.heap)
    ensures ClearFrom(w, i).Returned?
    ensures var w' := ClearFrom(w, i).value;
      AllocManager.Retagged(w.heap, w'.heap) && |w'.slots| == |w.slots| && w'.count == w.count &&
      (forall j :: 0 <= j < |w.slots| ==> w'.slots[j] == if i <= j && w.slots[j].key != NULL then EMPTY_PAIR else w.slots[j]) &&
      (forall j :: i <= j < |w.slots| && w.slots[j].key != NULL ==> !w'.heap[w.slots[j].node].block.cached) &&
      (forall p :: p in w.heap && w'.heap[p].block.cached ==> w.heap[p].block.cached)
    decreases |w.slots| - i
  {
    if i < |w.slots| {
      if w.slots[i].key == NULL {
        ClearFromClears(w, i + 1);
      } else {
        var n := w.slots[i].node;
        var w1 := w.(heap := AllocManager.Flag(w.heap, n, false), slots := w.slots[i := EMPTY_PAIR]);
        ResolvedRetagged(w.slots, w.heap, w1.heap);
        ClearFromClears(w1, i + 1);
      }
    }
  }

  // ------------------------------------------------------------ the list

  /** Unlinking a record changes no other record's payload. */
  lemma UnlinkKeepsBlocks(heap: map<Ptr, Entry>, pre: Ptr, e: Ptr, nxt: Ptr)
    ensures forall p :: p in heap && p != e ==> p in Unlink(heap, pre, e, nxt) && Unlink(heap, pre, e, nxt)[p].block == heap[p].block
  {
  }

  /** Unlinking and destroying the record at position k >= 1 leaves the
      rest of the list linked, rooted at the same head, with the cache still
      live once that record's slots are emptied. */
  lemma FreeKeeps(heap: map<Ptr, Entry>, chain: seq<Ptr>, slots: seq<Pair>, k: nat)
    requires Linked(heap, chain) && Live(slots, heap, chain) && 1 <= k < |chain|
    ensures var n := chain[k];
      var h := Unlink(heap, heap[n].previous, n, heap[n].next);
      var c := RemoveAt(chain, k);
      Linked(h, c) && c[0] == chain[0] && Live(Uncached(slots, n), h, c) &&
      Payloads(h, c) == RemoveAt(Payloads(heap, chain), k - 1)
  {
    var n := chain[k];
    var e := heap[n];
    var h := Unlink(heap, e.previous, n, e.next);
    var c := RemoveAt(chain, k);
    FreeUnlinks(heap, chain, k);
    UnlinkKeepsBlocks(heap, e.previous, n, e.next);
    LinkedDistinct(heap, chain);
    assert forall p :: p in chain && p != n ==> p in c;
    UncachedLive(slots, heap, chain, h, c, n);
  }

  /** The list part of FreeKeeps. */
  lemma FreeUnlinks(heap: map<Ptr, Entry>, chain: seq<Ptr>, k: nat)
    requires Linked(heap, chain) && 1 <= k < |chain|
    ensures var n := chain[k];
      var h := Unlink(heap, heap[n].previous, n, heap[n].next);
      var c := RemoveAt(chain, k);
      Linked(h, c) && c[0] == chain[0] &&
      Payloads(h, c) == RemoveAt(Payloads(heap, chain), k - 1)
  {
    var n := chain[k];
    var e := heap[n];
    LinkAt(heap, chain, k);
    LinkAt(heap, chain, k - 1);
    if k + 1 < |chain| {
      LinkedSplice(heap, chain, k, e.previous, n, e.next);
    } else {
      LinkedDropLast(heap, chain);
      var pre := chain[k - 1];
      assert Unlink(heap, e.previous, n, e.next) == heap[pre := heap[pre].(next := NULL)] - {n};
      RemoveAtLast(chain);
      RemoveAtLast(Payloads(heap, chain));
    }
  }

  /** Emptying the slots of a node that leaves the list keeps the others live. */
  lemma UncachedLive(slots: seq<Pair>, h1: map<Ptr, Entry>, c1: seq<Ptr>, h2: map<Ptr, Entry>, c2: seq<Ptr>, n: Ptr)
    requires Live(slots, h1, c1)
    requires forall p :: p in c1 && p != n && p in h1 ==> p in c2 && p in h2 && h2[p].block == h1[p].block
    ensures Live(Uncached(slots, n), h2, c2)
  {
    var s := Uncached(slots, n);
    forall i | 0 <= i < |s| && s[i].node != NULL
      ensures s[i].node in c2 && s[i].node in h2 && h2[s[i].node].block.data == s[i].key
    {
      assert s[i] == slots[i] && slots[i].node in c1;
    }
  }

  /** cache_clear keeps the list and keeps the slots live. */
  lemma ClearedLive(w: World, w': World, chain: seq<Ptr>)
    requires Linked(w.heap, chain) && Live(w.slots, w.heap, chain)
    requires ClearFrom(w, 0).Returned? && w' == ClearFrom(w, 0).value.(count := 0)
    ensures Linked(w'.heap, chain) && Live(w'.slots, w'.heap, chain) && |w'.slots| == |w.slots|
  {
    ClearFromClears(w, 0);
    LinkedRetagged(w.heap, w'.heap, chain);
    LiveRetagged(w.slots, w.heap, w'.heap, chain);
    forall i | 0 <= i < |w'.slots| && w'.slots[i].node != NULL
      ensures w'.slots[i] == w.slots[i]
    {
    }
  }

  /** The node list of src/pri_list.c with the file's cache globals. */
  class PriList {
    /** The node arena. */
    var heap: map<Ptr, Entry>
    /** The nodes in `next` order, the head first. */
    ghost var chain: seq<Ptr>
    /** The node list_init made. */
    const head: Ptr
    /** caching_nodes. */
    const slots: array<Pair>
    /** count_cache: the slot the next placement takes. */
    var count: u8
    /** tto_order: lookups since the last clock sweep. */
    var tto: u8
    /** last_access_node. */
    var lastAccess: Ptr
    /** list_caching and list_cache_lock: extern globals no code of the
        library writes after their initialisation. */
    const caching: bool
    const locked: bool

    ghost predicate Valid()
      reads this, slots
    {
      slots.Length == CACHE_SLOTS && Linked(heap, chain) && chain[0] == head &&
      Live(slots[..], heap, chain) && count as nat <= CACHE_SLOTS
    }

    /** The state the value-level model acts on. */
    function State(): World
      reads this, slots
    {
      World(heap, slots[..], count, tto, lastAccess)
    }

    /** list_init with the file's globals as they start: the head node alone,
        no slot occupied, cursor and clock at 0. `rec` is the head's address. */
    constructor (rec: Ptr, caching: bool, locked: bool)
      requires rec != NULL
      ensures Valid() && fresh(slots)
      ensures heap == map[rec := HeadEntry()] && chain == [rec] && head == rec
      ensures AllEmpty(slots[..]) && count == 0 && tto == 0 && lastAccess == NULL
      ensures this.caching == caching && this.locked == locked
    {
      heap := map[rec := HeadEntry()];
      chain := [rec];
      head := rec;
      slots := new Pair[CACHE_SLOTS](_ => EMPTY_PAIR);
      count, tto, lastAccess := 0, 0, NULL;
      this.caching, this.locked := caching, locked;
      new;
      LinkedIntro(heap, chain);
    }

    /** list_index_to_last: follow `next` from the head to the last node. */
    method IndexToLast() returns (last: Ptr)
      requires Valid()
      ensures last == chain[|chain| - 1]
    {
      var i := 0;
      last := head;
      LinkAt(heap, chain, 0);
      while heap[last].next != NULL
        invariant i < |chain| && last == chain[i]
        decreases |chain| - i
      {
        LinkAt(heap, chain, i);
        last := heap[last].next;
        i := i + 1;
      }
      if i + 1 < |chain| {
        LinkAt(heap, chain, i);
        LinkAt(heap, chain, i + 1);
      }
    }

    /** list_len: the nodes from the head on, the head included. */
    method Len() returns (n: nat)
      requires Valid()
      ensures n == |chain|
    {
      n := 0;
      var cur := head;
      while cur != NULL
        invariant n <= |chain| && cur == if n < |chain| then chain[n] else NULL
        decreases |chain| - n
      {
        LinkAt(heap, chain, n);
        cur := heap[cur].next;
        n := n + 1;
      }
      if n < |chain| {
        LinkAt(heap, chain, n);
      }
    }

    /** list_add: a node for `data` (size 0, the caller's thread, block id 0,
        weight 0, not cached) appended after the last node. `rec` is the new
        node's address. */
    method Add(data: Ptr, tid: nat, rec: Ptr) returns (node: Ptr)
      requires Valid() && rec != NULL && rec !in heap
      modifies this
      ensures Valid() && node == rec
      ensures chain == old(chain) + [rec]
      ensures var last := old(chain)[|old(chain)| - 1];
        heap == old(heap)[last := old(heap)[last].(next := rec)][rec := NewEntry(last, data, 0, tid)]
      ensures Payloads(heap, chain) == old(Payloads(heap, chain)) + [Block(data, 0, tid, false, 0, 0)]
      ensures count == old(count) && tto == old(tto) && lastAccess == old(lastAccess)
    {
      var last := IndexToLast();
      LinkedAppend(heap, chain, rec, data, 0, tid);
      ghost var c := chain + [rec];
      var h := heap[last := heap[last].(next := rec)][rec := NewEntry(last, data, 0, tid)];
      assert forall p :: p in chain ==> p in c && p in h && h[p].block == heap[p].block;
      UncachedLive(slots[..], heap, chain, h, c, rec);
      assert Uncached(slots[..], rec) == slots[..];
      heap, chain := h, c;
      node := rec;
    }

    /** libsafetynet's `node->size = size` on a node of the list other than
        the head. */
    method Resize(node: Ptr, size: usize)
      requires Valid() && node in chain && node != head
      modifies this
      ensures Valid() && chain == old(chain)
      ensures heap == old(heap)[node := old(heap)[node].(block := old(heap)[node].block.(size := size))]
      ensures count == old(count) && tto == old(tto) && lastAccess == old(lastAccess)
    {
      var k := IndexOf(chain, node);
      LinkAt(heap, chain, k);
      var b := heap[node].block.(size := size);
      LinkedSetBlock(heap, chain, k, b);
      ghost var h := heap[node := heap[node].(block := b)];
      forall i | 0 <= i < CACHE_SLOTS && slots[i].node != NULL
        ensures slots[i].node in h && h[slots[i].node].block.data == slots[i].key
      {
      }
      heap := heap[node := heap[node].(block := b)];
    }

    /** remove_cache_node: every slot naming `node` is emptied. */
    method RemoveCacheNode(node: Ptr)
      requires slots.Length == CACHE_SLOTS
      modifies slots
      ensures slots[..] == Uncached(old(slots[..]), node)
    {
      for i := 0 to CACHE_SLOTS
        invariant forall j :: 0 <= j < i ==> slots[j] == if old(slots[j]).node == node then EMPTY_PAIR else old(slots[j])
        invariant forall j :: i <= j < CACHE_SLOTS ==> slots[j] == old(slots[j])
      {
        if slots[i].node == node {
          slots[i] := EMPTY_PAIR;
        }
      }
    }

    /** list_free: the neighbours of `node` are linked to each other, its
        slots are emptied, and it is destroyed; NULL is ignored. Freeing any
        node but the head keeps the list whole, without that node. */
    method Free(node: Ptr)
      requires Valid() && (node == NULL || node in chain)
      modifies this, slots
      ensures node == NULL ==> heap == old(heap) && slots[..] == old(slots[..])
      ensures node != NULL ==>
        heap == Unlink(old(heap), old(heap)[node].previous, node, old(heap)[node].next) &&
        slots[..] == Uncached(old(slots[..]), node)
      ensures node != NULL && node != head ==>
        var k := IndexOf(old(chain), node);
        Valid() && chain == RemoveAt(old(chain), k) &&
        Payloads(heap, chain) == RemoveAt(old(Payloads(heap, chain)), k - 1)
      ensures count == old(count) && tto == old(tto) && lastAccess == old(lastAccess)
    {
      if node == NULL {
        return;
      }
      var e := heap[node];
      ghost var k := IndexOf(chain, node);
      ghost var c := chain;
      var h := Unlink(heap, e.previous, node, e.next);
      if node != head {
        LinkAt(heap, chain, 0);
        FreeKeeps(heap, chain, slots[..], k);
        c := RemoveAt(chain, k);
      }
      RemoveCacheNode(node);
      heap, chain := h, c;
    }

    /** cache_clear: every keyed slot's node loses `cached` and the slot is
        emptied; the cursor goes back to 0. */
    method ClearCache()
      requires Valid()
      modifies this, slots
      ensures ClearOf(old(State())).Returned? && State() == ClearOf(old(State())).value
      ensures Valid() && chain == old(chain)
    {
      ghost var w0 := State();
      ClearFromClears(w0, 0);
      for i := 0 to CACHE_SLOTS
        modifies this`heap, slots
        invariant ClearFrom(State(), i) == ClearFrom(w0, 0)
      {
        if slots[i].key != NULL {
          var n := slots[i].node;
          heap := AllocManager.Flag(heap, n, false);
          slots[i] := EMPTY_PAIR;
        }
      }
      count := 0;
      ClearedLive(w0, State(), chain);
    }

    /** get_caching_node: with caching on, the node of the first slot keyed
        by `ptr`; NULL otherwise. */
    method GetCachingNode(ptr: Ptr) returns (n: Ptr)
      requires slots.Length == CACHE_SLOTS
      ensures n == CachedNode(slots[..], ptr, caching)
    {
      if !caching {
        return NULL;
      }
      for i := 0 to CACHE_SLOTS
        invariant FirstKey(slots[..], ptr, i) == FirstKey(slots[..], ptr, 0)
      {
        if slots[i].key == ptr {
          return slots[i].node;
        }
      }
      return NULL;
    }

    /** get_caching_node_by_id; `fixed` skips empty slots instead of
        dereferencing them. */
    method GetCachingNodeById(id: u16, fixed: bool) returns (o: Outcome<Ptr>)
      requires slots.Length == CACHE_SLOTS
      ensures o == if caching then CachedById(State(), id, 0, fixed) else Returned(NULL)
    {
      if !caching {
        return Returned(NULL);
      }
      for i := 0 to CACHE_SLOTS
        invariant CachedById(State(), id, i, fixed) == CachedById(State(), id, 0, fixed)
      {
        var n := slots[i].node;
        if n == NULL || n !in heap {
          if !fixed {
            return Crashed(UndefinedBehaviour);
          }
        } else if heap[n].block.blockId == id {
          return Returned(n);
        }
      }
      return Returned(NULL);
    }

    /** __pri_list_reset_weight__: every node behind the head gets weight 0. */
    method ResetWeights()
      requires Valid()
      modifies this`heap
      ensures heap == ResetFrom(old(heap), chain, 1) && Valid()
    {
      ghost var h0, ch := heap, chain;
      LinkedElim(h0, ch);
      var cur := heap[head].next;
      ghost var i := 1;
      while cur != NULL
        invariant 1 <= i <= |ch| && cur == if i < |ch| then ch[i] else NULL
        invariant forall j :: 0 <= j < |ch| ==> ch[j] in heap
        invariant ResetFrom(heap, ch, i) == ResetFrom(h0, ch, 1)
        invariant AllocManager.Retagged(h0, heap)
        decreases |ch| - i
      {
        WeighedRetagged(h0, heap, cur, 0);
        heap := Weighed(heap, cur, 0);
        cur := heap[cur].next;
        i := i + 1;
      }
      LinkedRetagged(h0, heap, ch);
      LiveRetagged(slots[..], h0, heap, ch);
    }

    /** The sweep's first loop: every slot's node gets weight 0; as written
        an empty slot faults (`ok` false), the fixed loop skips it. */
    method ZeroCachedWeights(fixed: bool) returns (ok: bool)
      requires Valid()
      modifies this`heap
      ensures ok == ZeroSlots(old(heap), slots[..], 0, fixed).Some?
      ensures ok ==> heap == ZeroSlots(old(heap), slots[..], 0, fixed).value && Valid()
    {
      for i := 0 to CACHE_SLOTS
        invariant ZeroSlots(heap, slots[..], i, fixed) == ZeroSlots(old(heap), slots[..], 0, fixed)
      {
        var n := slots[i].node;
        if n == NULL || n !in heap {
          if !fixed {
            return false;
          }
        } else {
          heap := Weighed(heap, n, 0);
        }
      }
      ok := true;
      LinkedRetagged(old(heap), heap, chain);
      LiveRetagged(slots[..], old(heap), heap, chain);
    }

    /** One placement of the sweep: the slot's old node loses `cached`,
        node n takes slot c and the cursor moves on. */
    method PlaceAt(n: Ptr, c: nat, cursor: u8)
      requires slots.Length == CACHE_SLOTS && c < CACHE_SLOTS && n in heap
      requires slots[c].node != NULL ==> slots[c].node in heap
      modifies this`heap, this`count, slots
      ensures State() == Place(old(State()), n, c, cursor)
    {
      var prev := slots[c].node;
      var h := if prev != NULL then AllocManager.Flag(heap, prev, false) else heap;
      h := Enlisted(h, n);
      slots[c] := Pair(h[n].block.data, n);
      heap, count := h, cursor;
    }

    /** The sweep's second loop, from the head: every node below
        RECACHE_BELOW evicts the cursor's slot and takes it. */
    method Walk(fixed: bool) returns (o: Outcome<()>)
      requires Valid()
      modifies this`heap, this`count, slots
      ensures o.Crashed? == WalkFrom(old(State()), chain, 0, fixed).Crashed?
      ensures o.Returned? ==> State() == WalkFrom(old(State()), chain, 0, fixed).value && Valid()
    {
      ghost var w0 := State();
      LinkedElim(w0.heap, chain);
      var cur := head;
      ghost var i := 0;
      while cur != NULL
        invariant i <= |chain| && cur == if i < |chain| then chain[i] else NULL
        invariant forall j :: 0 <= j < |chain| ==> chain[j] in heap
        invariant WalkFrom(State(), chain, i, fixed) == WalkFrom(w0, chain, 0, fixed)
        invariant AllocManager.Retagged(w0.heap, heap)
        decreases |chain| - i
      {
        ghost var hPre := heap;
        var step := WalkAt(cur, fixed);
        if step.Crashed? {
          return Crashed(step.fault);
        }
        AllocManager.RetaggedTrans(w0.heap, hPre, heap);
        cur := heap[cur].next;
        i := i + 1;
      }
      o := Returned(());
      WalkSafe(w0, chain, 0, fixed);
      LinkedRetagged(w0.heap, heap, chain);
    }

    /** The walk's body at node n. */
    method WalkAt(n: Ptr, fixed: bool) returns (o: Outcome<()>)
      requires slots.Length == CACHE_SLOTS && n in heap
      modifies this`heap, this`count, slots
      ensures o.Crashed? == WalkStep(old(State()), n, fixed).Crashed?
      ensures o.Crashed? ==> o.fault == WalkStep(old(State()), n, fixed).fault
      ensures o.Returned? ==> State() == WalkStep(old(State()), n, fixed).value
    {
      if heap[n].block.weight >= RECACHE_BELOW {
        return Returned(());
      }
      if !fixed && count as nat >= CACHE_SLOTS {
        return Crashed(UndefinedBehaviour);
      }
      var c := if fixed then count as nat % CACHE_SLOTS else count as nat;
      var prev := slots[c].node;
      if prev != NULL && prev !in heap {
        return Crashed(UndefinedBehaviour);
      }
      PlaceAt(n, c, if fixed then ((c + 1) % CACHE_SLOTS) as u8 else count + 1);
      o := Returned(());
    }

    /** __pri_list_caching__ on this list. */
    method Sweep(fixed: bool) returns (o: Outcome<()>)
      requires Valid()
      modifies this`heap, this`count, slots
      ensures o.Crashed? == SweepOf(old(State()), chain, caching, locked, fixed).Crashed?
      ensures o.Returned? ==> State() == SweepOf(old(State()), chain, caching, locked, fixed).value && Valid()
    {
      ghost var w0 := State();
      if !caching || locked {
        ResetWeights();
        assert SweepOf(w0, chain, caching, locked, fixed) == Returned(w0.(heap := heap));
        return Returned(());
      }
      LinkAt(heap, chain, 0);
      if heap[head].next == NULL {
        return Returned(());
      }
      var ok := ZeroCachedWeights(fixed);
      if !ok {
        return Crashed(UndefinedBehaviour);
      }
      assert SweepOf(w0, chain, caching, locked, fixed) == WalkFrom(State(), chain, 0, fixed);
      o := Walk(fixed);
    }

    /** inc_weight. */
    method IncWeight(n: Ptr, fixed: bool) returns (o: Outcome<()>)
      requires Valid() && n in heap
      modifies this`heap, this`count, slots
      ensures o.Crashed? == IncWeightOf(old(State()), chain, n, caching, locked, fixed).Crashed?
      ensures o.Returned? ==> State() == IncWeightOf(old(State()), chain, n, caching, locked, fixed).value && Valid()
    {
      if heap[n].block.weight < WEIGHT_CAP {
        Reweigh(n, heap[n].block.weight + 1);
        return Returned(());
      }
      o := Sweep(fixed);
    }

    /** `n->weight = v`. */
    method Reweigh(n: Ptr, v: u8)
      requires Valid() && n in heap
      modifies this`heap
      ensures heap == Weighed(old(heap), n, v) && Valid()
    {
      ghost var h0 := heap;
      WeighedRetagged(h0, h0, n, v);
      heap := Weighed(heap, n, v);
      LinkedRetagged(h0, heap, chain);
      LiveRetagged(slots[..], h0, heap, chain);
    }

    /** inc_time. */
    method IncTime(fixed: bool) returns (o: Outcome<()>)
      requires Valid()
      modifies this`heap, this`count, this`tto, slots
      ensures o.Crashed? == IncTimeOf(old(State()), chain, caching, locked, fixed).Crashed?
      ensures o.Returned? ==> State() == IncTimeOf(old(State()), chain, caching, locked, fixed).value && Valid()
    {
      if tto == TTO_LIMIT {
        tto := 0;
        o := Sweep(fixed);
        if o.Crashed? {
          return;
        }
      }
      tto := WrapInc8(tto);
      o := Returned(());
    }

    /** A lookup's hit on node n, at position k of the list. */
    method Visit(n: Ptr, ghost k: nat, fixed: bool) returns (o: Outcome<Ptr>)
      requires Valid() && k < |chain| && n == chain[k]
      modifies this`heap, this`count, this`tto, this`lastAccess, slots
      ensures o.Crashed? == VisitOf(old(State()), chain, k, caching, locked, fixed).Crashed?
      ensures o.Returned? ==> (o.value, State()) == VisitOf(old(State()), chain, k, caching, locked, fixed).value && Valid()
    {
      var u := IncWeight(n, fixed);
      if u.Crashed? {
        return Crashed(u.fault);
      }
      u := IncTime(fixed);
      if u.Crashed? {
        return Crashed(u.fault);
      }
      lastAccess := n;
      o := Returned(n);
    }

    /** The walk of list_query and list_query_by_id: the first node of the
        list whose payload satisfies p is visited. */
    method Scan(p: Block -> bool, fixed: bool) returns (o: Outcome<Ptr>)
      requires Valid()
      modifies this`heap, this`count, this`tto, this`lastAccess, slots
      ensures o.Crashed? == ScanOf(old(State()), chain, p, caching, locked, fixed).Crashed?
      ensures o.Returned? ==> (o.value, State()) == ScanOf(old(State()), chain, p, caching, locked, fixed).value && Valid()
    {
      ghost var ch := chain;
      LinkedElim(heap, ch);
      var cur := head;
      ghost var i := 0;
      while cur != NULL && !p(heap[cur].block)
        invariant i <= |ch| && cur == if i < |ch| then ch[i] else NULL
        invariant FirstMatch(Project(heap, ch), i, p) == FirstMatch(Project(heap, ch), 0, p)
        decreases |ch| - i
      {
        cur := heap[cur].next;
        i := i + 1;
      }
      if cur == NULL {
        return Returned(NULL);
      }
      o := Visit(cur, i, fixed);
    }

    /** list_query. */
    method Query(data: Ptr, fixed: bool) returns (o: Outcome<Ptr>)
      requires Valid()
      modifies this`heap, this`count, this`tto, this`lastAccess, slots
      ensures o.Crashed? == QueryOf(old(State()), chain, data, caching, locked, fixed).Crashed?
      ensures o.Returned? ==> (o.value, State()) == QueryOf(old(State()), chain, data, caching, locked, fixed).value && Valid()
    {
      var cag := GetCachingNode(data);
      if cag != NULL {
        return Returned(cag);
      }
      o := Scan(DataIs(data), fixed);
    }

    /** list_query_by_id. */
    method QueryById(id: u16, fixed: bool) returns (o: Outcome<Ptr>)
      requires Valid()
      modifies this`heap, this`count, this`tto, this`lastAccess, slots
      ensures o.Crashed? == QueryByIdOf(old(State()), chain, id, caching, locked, fixed).Crashed?
      ensures o.Returned? ==> (o.value, State()) == QueryByIdOf(old(State()), chain, id, caching, locked, fixed).value && Valid()
    {
      var cag := GetCachingNodeById(id, fixed);
      if cag.Crashed? {
        return Crashed(cag.fault);
      }
      if cag.value != NULL {
        return Returned(cag.value);
      }
      o := Scan(IdIs(id), fixed);
    }

    /** add_cache_node. */
    method AddCacheNode(ptr: Ptr, fixed: bool) returns (o: Outcome<bool>)
      requires Valid()
      modifies this`heap, this`count, this`tto, this`lastAccess, slots
      ensures o.Crashed? == AddCacheOf(old(State()), chain, ptr, caching, locked, fixed).Crashed?
      ensures o.Returned? ==> (o.value, State()) == AddCacheOf(old(State()), chain, ptr, caching, locked, fixed).value && Valid()
    {
      if !caching {
        return Returned(false);
      }
      if !fixed && count as nat >= CACHE_SLOTS {
        return Crashed(UndefinedBehaviour);
      }
      if slots[count as nat % CACHE_SLOTS].node != NULL {
        return Returned(false);
      }
      ghost var w0 := State();
      var q := Query(ptr, fixed);
      if q.Crashed? {
        return Crashed(q.fault);
      }
      QueryFinds(w0, chain, ptr, caching, locked, fixed);
      o := Fill(w0, q.value, ptr, fixed);
    }

    /** add_cache_node after its lookup returned qp (w0: the state before the lookup). */
    method Fill(ghost w0: World, qp: Ptr, ptr: Ptr, fixed: bool) returns (o: Outcome<bool>)
      requires Valid() && AllocManager.Retagged(w0.heap, heap)
      requires qp != NULL ==> qp in chain && qp in w0.heap && w0.heap[qp].block.data == ptr
      modifies this`heap, this`count, slots
      ensures o.Crashed? == FillOf(old(State()), qp, ptr, fixed).Crashed?
      ensures o.Returned? ==> (o.value, State()) == FillOf(old(State()), qp, ptr, fixed).value && Valid()
    {
      if qp == NULL {
        return Returned(false);
      }
      if (!fixed && count as nat >= CACHE_SLOTS) || qp !in heap {
        return Crashed(UndefinedBehaviour);
      }
      ghost var w1 := State();
      FillLive(w0, w1, chain, qp, ptr, fixed);
      var c := count as nat % CACHE_SLOTS;
      Slot(qp, ptr, c, if fixed then ((c + 1) % CACHE_SLOTS) as u8 else count + 1);
      LinkedRetagged(w1.heap, heap, chain);
      o := Returned(true);
    }

    /** Node n takes slot c keyed by `key`, gets weight 0 and `cached`, and
        the cursor moves on. */
    method Slot(n: Ptr, key: Ptr, c: nat, cursor: u8)
      requires slots.Length == CACHE_SLOTS && c < CACHE_SLOTS && n in heap
      modifies this`heap, this`count, slots
      ensures State() == old(State()).(heap := Enlisted(old(heap), n), slots := old(slots[..])[c := Pair(key, n)], count := cursor)
      ensures AllocManager.Retagged(old(heap), heap)
    {
      var h := Enlisted(heap, n);
      assert AllocManager.Retagged(heap, h);
      slots[c] := Pair(key, n);
      heap, count := h, cursor;
    }
  }
}
