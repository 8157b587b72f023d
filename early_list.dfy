/** The earlier registry of src/linked_list_c.c: a doubly linked list behind a
    dummy head whose push PREPENDS, so the physical first entry is the newest
    and the physical last entry the oldest.

    As in the backend registry, records live in an arena `heap` keyed by
    address and destroying a record removes its key. The ghost `chain` lists
    the entries in `next` order starting at `firstEntry`; the head is not
    part of it. The head's own `next` is written by push but read by nothing,
    so the shape below says nothing about it. */
module EarlyList {
  import opened Common

  /** The payload of a record: everything but the links. */
  datatype Item = Item(data: Ptr, size: usize, tid: nat, blockId: u16)

  /** A record as it lies in memory. */
  datatype Record = Record(previous: Ptr, item: Item, isHead: bool, next: Ptr)

  /** The payloads of the records at `ptrs`, in order. */
  function Items(heap: map<Ptr, Record>, ptrs: seq<Ptr>): (its: seq<Item>)
    requires forall p :: p in ptrs ==> p in heap
    ensures |its| == |ptrs|
    ensures forall i :: 0 <= i < |ptrs| ==> its[i] == heap[ptrs[i]].item
  {
    seq(|ptrs|, i requires 0 <= i < |ptrs| => heap[ptrs[i]].item)
  }

  /** The records at `chain` are live, distinct, not the head, and form one
      doubly linked run: the first has no `previous`, the last no `next`. */
  ghost predicate Chained(heap: map<Ptr, Record>, chain: seq<Ptr>)
  {
    (forall i :: 0 <= i < |chain| ==> chain[i] != NULL && chain[i] in heap && !heap[chain[i]].isHead) &&
    (forall i, j :: 0 <= i < j < |chain| ==> chain[i] != chain[j]) &&
    (forall i, j :: 0 <= i && j == i + 1 && j < |chain| ==>
       heap[chain[i]].next == chain[j] && heap[chain[j]].previous == chain[i]) &&
    (|chain| > 0 ==> heap[chain[0]].previous == NULL && heap[chain[|chain| - 1]].next == NULL)
  }

  /** The shape of a list object: a live head with no `previous`, the entries
      chained after it, `first`/`last` at the ends of the chain (the head when
      it is empty), and `len` counting the entries. */
  ghost predicate Fronted(heap: map<Ptr, Record>, chain: seq<Ptr>, head: Ptr, first: Ptr, last: Ptr, len: nat)
  {
    head != NULL && head in heap && heap[head].isHead && heap[head].previous == NULL && head !in chain &&
    Chained(heap, chain) &&
    first == (if chain == [] then head else chain[0]) &&
    last == (if chain == [] then head else chain[|chain| - 1]) &&
    len == |chain|
  }

  /** The first position from `i` whose payload and index satisfy the worker's test. */
  function Search(its: seq<Item>, i: nat, p: (Item, nat) -> bool): (r: Option<nat>)
    decreases |its| - i
    ensures r.Some? ==> i <= r.value < |its| && p(its[r.value], r.value)
    ensures r.Some? ==> forall j :: i <= j < r.value ==> !p(its[j], j)
    ensures r.None? ==> forall j :: i <= j < |its| ==> !p(its[j], j)
  {
    if i >= |its| then None
    else if p(its[i], i) then Some(i)
    else Search(its, i + 1, p)
  }

  /** linked_list_searchForPointer. */
  function DataAt(key: Ptr): (Item, nat) -> bool { (it: Item, i: nat) => it.data == key }
  /** linked_list_searchForIndex. */
  function IndexAt(index: nat): (Item, nat) -> bool { (it: Item, i: nat) => i == index }
  /** linked_list_searchForId. */
  function IdAt(id: u16): (Item, nat) -> bool { (it: Item, i: nat) => it.blockId == id }

  /** The search for the position of an index is that index, when it exists. */
  lemma SearchIndex(its: seq<Item>, index: nat)
    ensures Search(its, 0, IndexAt(index)) == if index < |its| then Some(index) else None
  {
    if index < |its| {
      assert IndexAt(index)(its[index], index);
    }
  }

  /** linked_list_entry_pri_reweave as written: it clears the record's `next`
      before copying it into the predecessor, so a predecessor is always left
      with `next == NULL`. */
  function Reweave(heap: map<Ptr, Record>, e: Ptr): (h: map<Ptr, Record>)
    requires e in heap
    ensures h.Keys == heap.Keys
  {
    var r := heap[e];
    var h1 := if r.next != NULL && r.next in heap
              then heap[r.next := heap[r.next].(previous := r.previous)][e := r.(next := NULL)]
              else heap;
    var r1 := h1[e];
    if r1.previous != NULL && r1.previous in h1
    then h1[r1.previous := h1[r1.previous].(next := r1.next)][e := r1.(previous := NULL)]
    else h1
  }

  /** The unlink reweave evidently intends: each neighbour is pointed past
      the record, and the record itself is destroyed. */
  function Unweave(heap: map<Ptr, Record>, e: Ptr): (h: map<Ptr, Record>)
    requires e in heap
  {
    var pre := heap[e].previous;
    var nxt := heap[e].next;
    var h1 := if pre != NULL && pre in heap then heap[pre := heap[pre].(next := nxt)] else heap;
    var h2 := if nxt != NULL && nxt in h1 then h1[nxt := h1[nxt].(previous := pre)] else h1;
    h2 - {e}
  }

  /** Reweaving an interior entry cuts the list after its predecessor: the
      predecessor's `next` becomes NULL although an entry follows. */
  lemma ReweaveTruncates(heap: map<Ptr, Record>, chain: seq<Ptr>, k: nat)
    requires Chained(heap, chain) && 0 < k < |chain| - 1
    ensures var h := Reweave(heap, chain[k]);
      chain[k - 1] in h && h[chain[k - 1]].next == NULL && chain[k + 1] in h
  {
    assert heap[chain[k - 1]].next == chain[k] && heap[chain[k]].previous == chain[k - 1];
    assert heap[chain[k]].next == chain[k + 1];
    assert chain[k - 1] != chain[k] && chain[k + 1] != chain[k] && chain[k - 1] != chain[k + 1];
  }

  /** A record other than `e` after `e` is unlinked: its neighbours point
      past `e`, every other record is as it was. */
  function Relinked(heap: map<Ptr, Record>, e: Ptr, p: Ptr): Record
    requires e in heap && p in heap
  {
    if p == heap[e].previous then heap[p].(next := heap[e].next)
    else if p == heap[e].next then heap[p].(previous := heap[e].previous)
    else heap[p]
  }

  /** `h` is `heap` with `e` unlinked and destroyed. */
  ghost predicate UnlinkedAt(heap: map<Ptr, Record>, h: map<Ptr, Record>, e: Ptr)
  {
    e in heap && e !in h &&
    forall p :: p in heap && p != e && p != NULL ==> p in h && h[p] == Relinked(heap, e, p)
  }

  /** Reweaving the first entry of a chain, then destroying it, unlinks it:
      with no predecessor, the order slip in reweave does no harm. */
  lemma ReweaveFirst(heap: map<Ptr, Record>, chain: seq<Ptr>)
    requires Chained(heap, chain) && |chain| > 0
    ensures UnlinkedAt(heap, Reweave(heap, chain[0]) - {chain[0]}, chain[0])
  {
    if |chain| > 1 {
      LinkAt(heap, chain, 0);
    }
  }

  /** The intended unlink is an unlink, when the two neighbours differ. */
  lemma UnweaveUnlinks(heap: map<Ptr, Record>, e: Ptr)
    requires e in heap
    requires heap[e].previous == NULL || heap[e].previous != heap[e].next
    ensures UnlinkedAt(heap, Unweave(heap, e), e)
  {
  }

  /** Unlinking an entry keeps the remaining entries chained, in order. */
  lemma UnlinkedChain(heap: map<Ptr, Record>, h: map<Ptr, Record>, chain: seq<Ptr>, k: nat)
    requires Chained(heap, chain) && k < |chain| && UnlinkedAt(heap, h, chain[k])
    ensures Chained(h, RemoveAt(chain, k))
  {
    var e := chain[k];
    var c := RemoveAt(chain, k);
    assert heap[e].previous == if k > 0 then chain[k - 1] else NULL;
    assert heap[e].next == if k + 1 < |chain| then chain[k + 1] else NULL;
    assert forall i :: 0 <= i < k ==> c[i] == chain[i];
    assert forall i :: k <= i < |c| ==> c[i] == chain[i + 1];
    forall i, j | 0 <= i && j == i + 1 && j < |c|
      ensures h[c[i]].next == c[j] && h[c[j]].previous == c[i]
    {
      if j < k {
        LinkAt(heap, chain, i);
      } else if j == k {
        assert c[i] == chain[k - 1] && c[j] == chain[k + 1];
      } else {
        LinkAt(heap, chain, i + 1);
      }
    }
    if |c| > 0 {
      assert h[c[0]].previous == NULL by {
        if k > 0 { assert c[0] == chain[0]; }
      }
      assert h[c[|c| - 1]].next == NULL by {
        if k < |chain| - 1 { assert c[|c| - 1] == chain[|chain| - 1]; }
      }
    }
  }

  /** Unlinking an entry removes its payload and keeps the others, in order. */
  lemma UnlinkedItems(heap: map<Ptr, Record>, h: map<Ptr, Record>, chain: seq<Ptr>, k: nat)
    requires Chained(heap, chain) && k < |chain| && UnlinkedAt(heap, h, chain[k])
    requires forall p :: p in RemoveAt(chain, k) ==> p in h
    ensures Items(h, RemoveAt(chain, k)) == RemoveAt(Items(heap, chain), k)
  {
    var c := RemoveAt(chain, k);
    forall i | 0 <= i < |c|
      ensures Items(h, c)[i] == RemoveAt(Items(heap, chain), k)[i]
    {
      if i < k { assert c[i] == chain[i]; } else { assert c[i] == chain[i + 1]; }
    }
  }

  /** The list shape survives unlinking entry `k`: `first` and `last` move
      past it when it was at an end, and `len` drops. */
  lemma FrontedUnlinked(heap: map<Ptr, Record>, h: map<Ptr, Record>, chain: seq<Ptr>, head: Ptr,
                        first: Ptr, last: Ptr, len: nat, k: nat)
    requires Fronted(heap, chain, head, first, last, len) && k < |chain| && UnlinkedAt(heap, h, chain[k])
    ensures var e := heap[chain[k]];
      Fronted(h, RemoveAt(chain, k), head,
              if first == chain[k] then (if e.next != NULL then e.next else head) else first,
              if last == chain[k] then (if e.previous != NULL then e.previous else head) else last,
              len - 1)
    ensures Items(h, RemoveAt(chain, k)) == RemoveAt(Items(heap, chain), k)
  {
    UnlinkedChain(heap, h, chain, k);
    UnlinkedItems(heap, h, chain, k);
    assert heap[chain[k]].previous == if k > 0 then chain[k - 1] else NULL;
    assert heap[chain[k]].next == if k + 1 < |chain| then chain[k + 1] else NULL;
    assert h[head] == heap[head];
    var c := RemoveAt(chain, k);
    assert head !in c;
    if k > 0 && k == |chain| - 1 {
      assert c[|c| - 1] == chain[k - 1];
    }
    if k == 0 && |chain| > 1 {
      assert c[0] == chain[1];
    }
  }

  /** The intended unlink of entry `k` keeps the list shape and removes
      exactly that entry's payload. */
  lemma FrontedUnweave(heap: map<Ptr, Record>, chain: seq<Ptr>, head: Ptr, first: Ptr, last: Ptr, len: nat, k: nat,
                       first': Ptr, last': Ptr)
    requires Fronted(heap, chain, head, first, last, len) && k < |chain|
    requires var e := heap[chain[k]];
      first' == (if first == chain[k] then (if e.next != NULL then e.next else head) else first) &&
      last' == (if last == chain[k] then (if e.previous != NULL then e.previous else head) else last)
    ensures Fronted(Unweave(heap, chain[k]), RemoveAt(chain, k), head, first', last', len - 1)
    ensures Items(Unweave(heap, chain[k]), RemoveAt(chain, k)) == RemoveAt(Items(heap, chain), k)
  {
    var e := chain[k];
    assert heap[e].previous == NULL || heap[e].previous != heap[e].next by {
      if k > 0 && k + 1 < |chain| { LinkAt(heap, chain, k - 1); LinkAt(heap, chain, k); }
    }
    UnweaveUnlinks(heap, e);
    FrontedUnlinked(heap, Unweave(heap, e), chain, head, first, last, len, k);
  }

  /** Unlinks entry `k`, at `e`, from both neighbours and destroys it:
      the new heap and the new ends, which move past the entry when it was
      at an end and fall back to the head when the list empties. */
  method Unlinked(heap: map<Ptr, Record>, ghost chain: seq<Ptr>, head: Ptr, first: Ptr, last: Ptr, len: nat,
                  e: Ptr, ghost k: nat) returns (h: map<Ptr, Record>, first': Ptr, last': Ptr)
    requires Fronted(heap, chain, head, first, last, len) && k < |chain| && e == chain[k]
    ensures Fronted(h, RemoveAt(chain, k), head, first', last', len - 1) && e !in h
    ensures Items(h, RemoveAt(chain, k)) == RemoveAt(Items(heap, chain), k)
  {
    var pre := heap[e].previous;
    var nxt := heap[e].next;
    first' := if first != e then first else if nxt != NULL then nxt else head;
    last' := if last != e then last else if pre != NULL then pre else head;
    FrontedUnweave(heap, chain, head, first, last, len, k, first', last');
    h := Unweave(heap, e);
  }

  /** Reweaving and destroying the first of two or more entries, as
      removeEntryByPtr does, drops it from the front of the list. */
  lemma FrontedReweaveFirst(heap: map<Ptr, Record>, chain: seq<Ptr>, head: Ptr, first: Ptr, last: Ptr, len: nat)
    requires Fronted(heap, chain, head, first, last, len) && |chain| >= 2
    ensures Fronted(Reweave(heap, chain[0]) - {chain[0]}, chain[1..], head, chain[1], last, len - 1)
    ensures Items(Reweave(heap, chain[0]) - {chain[0]}, chain[1..]) == Items(heap, chain)[1..]
  {
    ReweaveFirst(heap, chain);
    LinkAt(heap, chain, 0);
    FrontedUnlinked(heap, Reweave(heap, chain[0]) - {chain[0]}, chain, head, first, last, len, 0);
    assert RemoveAt(chain, 0) == chain[1..];
    assert RemoveAt(Items(heap, chain), 0) == Items(heap, chain)[1..];
  }

  /** The links between neighbours `i` and `i + 1` of a chain. */
  lemma LinkAt(heap: map<Ptr, Record>, chain: seq<Ptr>, i: nat)
    requires Chained(heap, chain) && i + 1 < |chain|
    ensures chain[i] != chain[i + 1] && chain[i] != NULL && chain[i + 1] != NULL
    ensures heap[chain[i]].next == chain[i + 1] && heap[chain[i + 1]].previous == chain[i]
  {
  }

  /** `s` without its element at position k. */
  function RemoveAt<T>(s: seq<T>, k: nat): (r: seq<T>)
    requires k < |s|
    ensures |r| == |s| - 1
  {
    s[..k] + s[k + 1..]
  }

  /** The heap after push links the fresh record `rec` in front of the
      entries, in the order push writes the fields. */
  function Prepended(heap: map<Ptr, Record>, chain: seq<Ptr>, head: Ptr, rec: Ptr, it: Item): map<Ptr, Record>
    requires head in heap && forall p :: p in chain ==> p in heap
  {
    var h0 := heap[rec := Record(NULL, it, false, NULL)];
    if chain == [] then
      h0[head := h0[head].(next := rec)]
    else
      var f := chain[0];
      var h1 := h0[f := h0[f].(previous := rec)];
      var h2 := h1[head := h1[head].(next := rec)];
      h2[rec := h2[rec].(next := f)]
  }

  /** Linking a fresh record in front of the entries keeps the list shape,
      puts its payload first, and makes it the first entry (and the last
      one too when the list was empty). */
  lemma FrontedPrepend(heap: map<Ptr, Record>, chain: seq<Ptr>, head: Ptr, first: Ptr, last: Ptr, len: nat,
                       rec: Ptr, it: Item)
    requires Fronted(heap, chain, head, first, last, len) && rec != NULL && rec !in heap
    ensures var h := Prepended(heap, chain, head, rec, it);
      Fronted(h, [rec] + chain, head, rec, if chain == [] then rec else last, len + 1) &&
      Items(h, [rec] + chain) == [it] + Items(heap, chain) && h[head].next == rec
  {
    var h := Prepended(heap, chain, head, rec, it);
    var c := [rec] + chain;
    assert h[rec] == Record(NULL, it, false, if chain == [] then NULL else chain[0]);
    assert forall i :: 1 <= i < |c| ==> c[i] == chain[i - 1];
    forall i | 1 <= i < |c|
      ensures c[i] in h && h[c[i]].item == heap[c[i]].item && h[c[i]].isHead == heap[c[i]].isHead
    {
      assert c[i] in heap;
    }
    forall i, j | 1 <= i && j == i + 1 && j < |c|
      ensures h[c[i]].next == c[j] && h[c[j]].previous == c[i]
    {
      LinkAt(heap, chain, i - 1);
    }
    if chain != [] {
      assert h[chain[|chain| - 1]].next == NULL;
    }
    assert Items(h, c) == [it] + Items(heap, chain);
  }

  /** The list object of src/linked_list_c.c. */
  class LinkedList {
    var heap: map<Ptr, Record>
    const head: Ptr
    var len: nat
    var firstEntry: Ptr
    var lastEntry: Ptr
    var lastAccess: Ptr
    ghost var chain: seq<Ptr>

    ghost predicate Valid()
      reads this`heap, this`chain, this`firstEntry, this`lastEntry, this`len
    {
      Fronted(heap, chain, head, firstEntry, lastEntry, len)
    }

    /** No choice of entries makes the object a well-formed list again. */
    ghost predicate Broken()
      reads this
    {
      forall c :: !Fronted(heap, c, head, firstEntry, lastEntry, len)
    }

    /** The payloads in `next` order, newest first. */
    ghost function Contents(): (its: seq<Item>)
      reads this`heap, this`chain, this`firstEntry, this`lastEntry, this`len
      requires Valid()
      ensures |its| == |chain|
    {
      Items(heap, chain)
    }

    /** linked_list_new: a head record, which is both first and last, and
        no entries. `rec` is the head's address. */
    constructor (rec: Ptr, tid: nat)
      requires rec != NULL
      ensures Valid() && chain == [] && Contents() == []
      ensures head == rec && firstEntry == rec && lastEntry == rec && len == 0 && lastAccess == NULL
      ensures heap == map[rec := Record(NULL, Item(NULL, 0, tid, 0), true, NULL)]
    {
      head := rec;
      heap := map[rec := Record(NULL, Item(NULL, 0, tid, 0), true, NULL)];
      len := 0;
      firstEntry := rec;
      lastEntry := rec;
      lastAccess := NULL;
      chain := [];
    }

    /** linked_list_push: the new record goes in FRONT. On an empty list it
        becomes first and last; otherwise it becomes first, the old first
        points back at it and the last entry stays. `rec` is the address the
        record allocator returned. */
    method Push(data: Ptr, size: usize, tid: nat, rec: Ptr)
      requires Valid() && rec != NULL && rec !in heap
      modifies this
      ensures Valid()
      ensures chain == [rec] + old(chain) && Contents() == [Item(data, size, tid, 0)] + old(Contents())
      ensures firstEntry == rec && heap[head].next == rec && len == old(len) + 1
      ensures lastEntry == (if old(chain) == [] then rec else old(lastEntry))
      ensures heap[rec].previous == NULL && lastAccess == old(lastAccess)
    {
      var it := Item(data, size, tid, 0);
      FrontedPrepend(heap, chain, head, firstEntry, lastEntry, len, rec, it);
      ghost var h := Prepended(heap, chain, head, rec, it);
      if heap[firstEntry].isHead {
        heap := heap[rec := Record(NULL, it, false, NULL)];
        heap := heap[head := heap[head].(next := rec)];
        firstEntry, lastEntry, len, chain := rec, rec, len + 1, [rec];
        assert heap == h;
        return;
      }
      var first := firstEntry;
      heap := heap[rec := Record(NULL, it, false, NULL)];
      heap := heap[first := heap[first].(previous := rec)];
      heap := heap[head := heap[head].(next := rec)];
      heap := heap[rec := heap[rec].(next := first)];
      firstEntry, len, chain := rec, len + 1, [rec] + chain;
      assert heap == h;
    }

    /** linked_list_pop as written: `lastEntry` moves to the tail's
        `previous`, the tail is destroyed and `len` drops, with no guard for
        an empty list and without clearing the predecessor's `next`. */
    method Pop()
      requires Valid()
      modifies this
      ensures old(chain) == [] ==>
        head !in heap && lastEntry == NULL && len == SIZE_MOD - 1
      ensures var n := |old(chain)|;
        n > 0 ==>
          old(lastEntry) !in heap && len == old(len) - 1 &&
          lastEntry == (if n == 1 then NULL else old(chain)[n - 2])
      ensures var n := |old(chain)|;
        n >= 2 ==> old(chain)[n - 2] in heap && heap[old(chain)[n - 2]].next == old(lastEntry)
      ensures Broken()
    {
      var temp := lastEntry;
      lastEntry := heap[lastEntry].previous;
      heap := heap - {temp};
      len := if len == 0 then SIZE_MOD - 1 else len - 1;
      ghost var n := |chain|;
      if n >= 2 {
        assert old(heap)[chain[n - 2]].next == chain[n - 1];
      }
    }

    /** The pop evidently intended (the backend registry's): nothing on an
        empty list; otherwise the tail is unlinked from its predecessor and
        destroyed, and an emptied list points first and last at the head. */
    method PopFixed()
      requires Valid()
      modifies this
      ensures Valid() && lastAccess == old(lastAccess)
      ensures old(chain) == [] ==> chain == [] && heap == old(heap)
      ensures old(chain) != [] ==>
        chain == old(chain)[..|old(chain)| - 1] && Contents() == old(Contents())[..|old(chain)| - 1] &&
        old(lastEntry) !in heap && len == old(len) - 1
    {
      if lastEntry == head {
        return;
      }
      ghost var k := |chain| - 1;
      assert RemoveAt(chain, k) == chain[..k];
      assert RemoveAt(Contents(), k) == Contents()[..k];
      Excise(lastEntry, k);
    }

    /** Unlinks entry `k`, at `entry`, from both neighbours and destroys it;
        `firstEntry`/`lastEntry` move past it when it was at an end, and an
        emptied list points both at the head again. */
    method Excise(entry: Ptr, ghost k: nat)
      requires Valid() && k < |chain| && entry == chain[k]
      modifies this
      ensures Valid() && lastAccess == old(lastAccess)
      ensures chain == RemoveAt(old(chain), k) && Contents() == RemoveAt(old(Contents()), k)
      ensures entry !in heap && len == old(len) - 1
    {
      var h, f, l := Unlinked(heap, chain, head, firstEntry, lastEntry, len, entry, k);
      heap, firstEntry, lastEntry, len, chain := h, f, l, len - 1, RemoveAt(chain, k);
    }

    /** linked_list_forEach over a searching worker: NULL when the first
        entry is the head; otherwise the entries are visited in `next` order
        with indices 0, 1, 2, ... and the first one the worker returns is
        handed back. Every worker of this file returns the visited record
        or NULL, which is what `p` decides. */
    method ForEach(p: (Item, nat) -> bool) returns (r: Ptr)
      requires Valid()
      ensures var k := Search(Contents(), 0, p);
        r == if k.Some? then chain[k.value] else NULL
    {
      var entry := firstEntry;
      if heap[entry].isHead {
        return NULL;
      }
      var i: nat := 0;
      while entry != NULL
        invariant i <= |chain|
        invariant entry == if i < |chain| then chain[i] else NULL
        invariant Search(Contents(), i, p) == Search(Contents(), 0, p)
        decreases |chain| - i
      {
        var next := heap[entry].next;
        if p(heap[entry].item, i) {
          return entry;
        }
        entry := next;
        i := i + 1;
      }
      return NULL;
    }

    /** linked_list_getByPtr: the first entry tracking `key`, recorded as the
        last access; NULL for a NULL key. */
    method GetByPtr(key: Ptr) returns (r: Ptr)
      requires Valid()
      modifies this`lastAccess
      ensures Valid()
      ensures var k := Search(Contents(), 0, DataAt(key));
        if key == NULL || k.None? then
          r == NULL && lastAccess == old(lastAccess)
        else
          r == chain[k.value] && lastAccess == r
    {
      if key == NULL {
        return NULL;
      }
      r := ForEach(DataAt(key));
      if r != NULL {
        lastAccess := r;
      }
    }

    /** linked_list_hasPtr: whether some entry tracks `key` (never NULL); a
        hit is recorded as the last access. */
    method HasPtr(key: Ptr) returns (b: bool)
      requires Valid()
      modifies this`lastAccess
      ensures Valid()
      ensures b <==> key != NULL && exists j :: 0 <= j < |Contents()| && Contents()[j].data == key
      ensures b ==> lastAccess == chain[Search(Contents(), 0, DataAt(key)).value]
      ensures !b ==> lastAccess == old(lastAccess)
    {
      if key == NULL {
        return false;
      }
      var temp := ForEach(DataAt(key));
      ghost var k := Search(Contents(), 0, DataAt(key));
      if temp != NULL {
        assert Contents()[k.value].data == key;
        lastAccess := temp;
        return true;
      }
      return false;
    }

    /** linked_list_getByIndex: NULL when `len < index`; otherwise the entry
        at 0-based position `index` (so NULL again for `index == len`). */
    method GetByIndex(index: nat) returns (r: Ptr)
      requires Valid()
      modifies this`lastAccess
      ensures Valid()
      ensures if index < |chain| then r == chain[index] && lastAccess == r
              else r == NULL && lastAccess == old(lastAccess)
    {
      if len < index {
        return NULL;
      }
      r := ForEach(IndexAt(index));
      SearchIndex(Contents(), index);
      if r != NULL {
        lastAccess := r;
      }
    }

    /** linked_list_getById: the first entry carrying `id`, recorded as the
        last access. */
    method GetById(id: u16) returns (r: Ptr)
      requires Valid()
      modifies this`lastAccess
      ensures Valid()
      ensures var k := Search(Contents(), 0, IdAt(id));
        if k.None? then
          r == NULL && lastAccess == old(lastAccess)
        else
          r == chain[k.value] && lastAccess == r
    {
      r := ForEach(IdAt(id));
      if r != NULL {
        lastAccess := r;
      }
    }

    /** linked_list_hasId as written: true exactly when NO entry carries `id`. */
    method HasId(id: u16) returns (b: bool)
      requires Valid()
      modifies this`lastAccess
      ensures Valid()
      ensures b <==> forall j :: 0 <= j < |Contents()| ==> Contents()[j].blockId != id
      ensures var k := Search(Contents(), 0, IdAt(id));
        lastAccess == if k.Some? then chain[k.value] else old(lastAccess)
    {
      var temp := GetById(id);
      b := temp == NULL;
    }

    /** The hasId evidently intended: true exactly when some entry carries `id`. */
    method HasIdFixed(id: u16) returns (b: bool)
      requires Valid()
      modifies this`lastAccess
      ensures Valid()
      ensures b <==> exists j :: 0 <= j < |Contents()| && Contents()[j].blockId == id
      ensures var k := Search(Contents(), 0, IdAt(id));
        lastAccess == if k.Some? then chain[k.value] else old(lastAccess)
    {
      var temp := GetById(id);
      b := temp != NULL;
    }

    /** linked_list_removeEntryByPtr as written: nothing for a NULL key, and
        sn_crash(SN_ERR_CATASTROPHIC) for an unknown key. The `else` of the
        first-entry test crashes for every entry except a first entry with a
        successor, which is unlinked through reweave and destroyed. */
    method RemoveEntryByPtr(key: Ptr) returns (o: Outcome<()>)
      requires Valid()
      modifies this
      ensures var k := Search(old(Contents()), 0, DataAt(key));
        if key == NULL then
          o == Returned(()) && heap == old(heap) && chain == old(chain)
        else if k.None? || k.value != 0 || |old(chain)| == 1 then
          o == Crashed(Catastrophic)
        else
          o == Returned(()) && Valid() && chain == old(chain)[1..] && Contents() == old(Contents())[1..] &&
          old(firstEntry) !in heap
    {
      if key == NULL {
        return Returned(());
      }
      var entry := ForEach(DataAt(key));
      if entry == NULL {
        return Crashed(Catastrophic);
      }
      ghost var k := Search(Contents(), 0, DataAt(key)).value;
      assert |chain| > 1 ==> heap[chain[0]].next == chain[1];
      var prev := heap[entry].previous;
      var last := if lastEntry == entry && prev != NULL then prev else lastEntry;
      if firstEntry == entry && heap[entry].next != NULL {
        firstEntry := heap[entry].next;
      } else {
        assert k != 0 || |chain| == 1;
        return Crashed(Catastrophic);
      }
      lastEntry := last;
      FrontedReweaveFirst(heap, chain, head, old(firstEntry), lastEntry, len);
      heap := Reweave(heap, entry) - {entry};
      len := len - 1;
      chain := chain[1..];
      o := Returned(());
    }

    /** The removal evidently intended: any entry tracking `key` is unlinked
        from both neighbours, `firstEntry`/`lastEntry` follow when it was at
        an end, and `len` drops. An unknown key still crashes. */
    method RemoveEntryByPtrFixed(key: Ptr) returns (o: Outcome<()>)
      requires Valid()
      modifies this
      ensures var k := Search(old(Contents()), 0, DataAt(key));
        if key == NULL then
          o == Returned(()) && heap == old(heap) && chain == old(chain)
        else if k.None? then
          o == Crashed(Catastrophic)
        else
          o == Returned(()) && Valid() && chain == RemoveAt(old(chain), k.value) &&
          Contents() == RemoveAt(old(Contents()), k.value) && old(chain)[k.value] !in heap
    {
      if key == NULL {
        return Returned(());
      }
      var entry := ForEach(DataAt(key));
      if entry == NULL {
        return Crashed(Catastrophic);
      }
      ghost var k := Search(Contents(), 0, DataAt(key)).value;
      Excise(entry, k);
      o := Returned(());
    }
  }
}
