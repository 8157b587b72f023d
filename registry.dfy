/** The tracked-block registry of the backend (backend_api/src/linked_list_c.c):
    a doubly linked list of tracked-block records behind a dummy sentinel head,
    with physical first/last pointers, a length counter and a last-access pointer.

    Records live in an explicit arena `heap` keyed by their address; a link is an
    address, so a record that is destroyed while something still points at it
    leaves a visible dangling link. The ghost `chain` lists the records in `next`
    order, the sentinel first. */
module Registry {
  import opened Common

  /** The payload of a tracked-block record (everything but the links). */
  datatype Block = Block(data: Ptr, size: usize, tid: nat, cached: bool, blockId: u16, weight: u8)

  /** A record as it lies in memory. */
  datatype Entry = Entry(previous: Ptr, block: Block, isHead: bool, next: Ptr)

  /** What a forEach worker tells the walk: go on, stop with NULL
      (LIST_FOR_EACH_LOOP_BRAKE), or stop and hand back the visited record. */
  datatype Step = Continue | Brake | Yield

  /** linked_list_entry_new: a record with the given payload, every other field zero. */
  function NewEntry(previous: Ptr, data: Ptr, size: usize, tid: nat): Entry
  {
    Entry(previous, Block(data, size, tid, false, 0, 0), false, NULL)
  }

  /** The record after `_weight++`. */
  function Bumped(e: Entry): Entry
  {
    e.(block := e.block.(weight := WrapInc8(e.block.weight)))
  }

  /** The payloads of the records at `ptrs`, in order. */
  function Project(heap: map<Ptr, Entry>, ptrs: seq<Ptr>): (bs: seq<Block>)
    requires forall p :: p in ptrs ==> p in heap
    ensures |bs| == |ptrs|
    ensures forall i :: 0 <= i < |ptrs| ==> bs[i] == heap[ptrs[i]].block
  {
    seq(|ptrs|, i requires 0 <= i < |ptrs| => heap[ptrs[i]].block)
  }

  /** Position of `p` in `s`. */
  function IndexOf(s: seq<Ptr>, p: Ptr): (k: nat)
    requires p in s
    ensures k < |s| && s[k] == p
  {
    if s[0] == p then 0 else 1 + IndexOf(s[1..], p)
  }

  /** `s` without its element at position k. */
  function RemoveAt<T>(s: seq<T>, k: nat): (r: seq<T>)
    requires k < |s|
    ensures |r| == |s| - 1
  {
    s[..k] + s[k + 1..]
  }

  /** Removing the last element is taking the prefix. */
  lemma RemoveAtLast<T>(s: seq<T>)
    requires |s| >= 1
    ensures RemoveAt(s, |s| - 1) == s[..|s| - 1]
  {
  }

  /** The element at position k of a duplicate-free sequence has index k. */
  lemma {:induction false} IndexOfDistinct(s: seq<Ptr>, k: nat)
    requires k < |s|
    requires forall i, j :: 0 <= i < j < |s| ==> s[i] != s[j]
    ensures IndexOf(s, s[k]) == k
  {
    if k > 0 {
      assert s[0] != s[k];
      IndexOfDistinct(s[1..], k - 1);
    }
  }

  /** What forEach computes over the payloads `bs` from position `i` on: the
      worker's final accumulator and the position of the record it yielded. */
  function Walk<S>(bs: seq<Block>, i: nat, acc: S, worker: (S, Block, nat) -> (S, Step)): (w: (S, Option<nat>))
    requires i <= |bs|
    ensures w.1.Some? ==> i <= w.1.value < |bs|
    decreases |bs| - i
  {
    if i == |bs| then (acc, None)
    else
      var res := worker(acc, bs[i], i);
      match res.1
      case Continue => Walk(bs, i + 1, res.0, worker)
      case Brake => (res.0, None)
      case Yield => (res.0, Some(i))
  }

  /** Reference definition of a search: the first position from `i` whose payload satisfies `p`. */
  function FirstMatch(bs: seq<Block>, i: nat, p: Block -> bool): (r: Option<nat>)
    requires i <= |bs|
    ensures r.Some? ==> i <= r.value < |bs| && p(bs[r.value])
    ensures r.Some? ==> forall j :: i <= j < r.value ==> !p(bs[j])
    ensures r.None? ==> forall j :: i <= j < |bs| ==> !p(bs[j])
    decreases |bs| - i
  {
    if i == |bs| then None
    else if p(bs[i]) then Some(i)
    else FirstMatch(bs, i + 1, p)
  }

  /** The search workers of the source: linked_list_searchForPointer, ...ForId, ...ForIndex. */
  function DataIs(key: Ptr): Block -> bool { (b: Block) => b.data == key }
  function IdIs(id: u16): Block -> bool { (b: Block) => b.blockId == id }
  function SearchWorker(p: Block -> bool): (S: ((), Block, nat) -> ((), Step))
  {
    (u: (), b: Block, i: nat) => (u, if p(b) then Yield else Continue)
  }
  function IndexWorker(index: nat): ((), Block, nat) -> ((), Step)
  {
    (u: (), b: Block, i: nat) => (u, if i == index then Yield else Continue)
  }

  /** A search-worker walk yields exactly the first match. */
  lemma {:induction false} SearchWalk(bs: seq<Block>, i: nat, p: Block -> bool)
    requires i <= |bs|
    ensures Walk(bs, i, (), SearchWorker(p)) == ((), FirstMatch(bs, i, p))
    decreases |bs| - i
  {
    if i < |bs| && !p(bs[i]) {
      SearchWalk(bs, i + 1, p);
    }
  }

  /** The index-worker walk yields position `index` exactly when it exists. */
  lemma {:induction false} IndexWalk(bs: seq<Block>, i: nat, index: nat)
    requires i <= |bs| && i <= index
    ensures Walk(bs, i, (), IndexWorker(index)) == ((), if index < |bs| then Some(index) else None)
    decreases |bs| - i
  {
    if i < |bs| && i != index {
      IndexWalk(bs, i + 1, index);
    }
  }

  /** The records at `chain` form one doubly linked list behind the sentinel
      `chain[0]`, and the arena holds no other record. */
  ghost predicate Linked(heap: map<Ptr, Entry>, chain: seq<Ptr>)
  {
    |chain| >= 1 &&
    (forall i :: 0 <= i < |chain| ==> chain[i] in heap) &&
    |heap| == |chain| &&
    ChainFrom(heap, chain, 0) &&
    heap[chain[0]].previous == NULL &&
    heap[chain[|chain| - 1]].next == NULL
  }

  /** From position i on, every record is live, only the first one is the
      sentinel, every `next` is the record after it in the chain and that
      record's `previous` points back. */
  ghost predicate ChainFrom(heap: map<Ptr, Entry>, chain: seq<Ptr>, i: nat)
    decreases |chain| - i
  {
    i >= |chain| ||
    (chain[i] != NULL && chain[i] in heap && heap[chain[i]].isHead == (i == 0) &&
     (i + 1 < |chain| ==>
        chain[i + 1] in heap && heap[chain[i]].next == chain[i + 1] && heap[chain[i + 1]].previous == chain[i]) &&
     ChainFrom(heap, chain, i + 1))
  }

  /** ChainFrom, spelled out record by record and link by link. */
  lemma {:induction false} ChainElim(heap: map<Ptr, Entry>, chain: seq<Ptr>, s: nat)
    requires ChainFrom(heap, chain, s)
    ensures forall i :: s <= i < |chain| ==> chain[i] != NULL && chain[i] in heap && heap[chain[i]].isHead == (i == 0)
    ensures forall i, j :: s <= i && j == i + 1 && j < |chain| ==>
      chain[i] in heap && heap[chain[i]].next == chain[j] && heap[chain[j]].previous == chain[i]
    decreases |chain| - s
  {
    if s < |chain| {
      ChainElim(heap, chain, s + 1);
    }
  }

  /** ChainFrom, established record by record and link by link. */
  lemma {:induction false} ChainIntro(heap: map<Ptr, Entry>, chain: seq<Ptr>, s: nat)
    requires forall i :: s <= i < |chain| ==> chain[i] != NULL && chain[i] in heap && heap[chain[i]].isHead == (i == 0)
    requires forall i, j :: s <= i && j == i + 1 && j < |chain| ==>
      chain[i] in heap && heap[chain[i]].next == chain[j] && heap[chain[j]].previous == chain[i]
    ensures ChainFrom(heap, chain, s)
    decreases |chain| - s
  {
    if s < |chain| {
      if s + 1 < |chain| {
        assert heap[chain[s]].next == chain[s + 1];
      }
      ChainIntro(heap, chain, s + 1);
    }
  }

  /** Linked, spelled out. */
  lemma LinkedElim(heap: map<Ptr, Entry>, chain: seq<Ptr>)
    requires Linked(heap, chain)
    ensures forall i :: 0 <= i < |chain| ==> chain[i] != NULL && chain[i] in heap && heap[chain[i]].isHead == (i == 0)
    ensures forall i, j :: 0 <= i && j == i + 1 && j < |chain| ==>
      heap[chain[i]].next == chain[j] && heap[chain[j]].previous == chain[i]
  {
    ChainElim(heap, chain, 0);
  }

  /** Linked, established from its spelled-out form. */
  lemma LinkedIntro(heap: map<Ptr, Entry>, chain: seq<Ptr>)
    requires |chain| >= 1 && |heap| == |chain|
    requires forall i :: 0 <= i < |chain| ==> chain[i] != NULL && chain[i] in heap && heap[chain[i]].isHead == (i == 0)
    requires forall i, j :: 0 <= i && j == i + 1 && j < |chain| ==>
      heap[chain[i]].next == chain[j] && heap[chain[j]].previous == chain[i]
    requires heap[chain[0]].previous == NULL && heap[chain[|chain| - 1]].next == NULL
    ensures Linked(heap, chain)
  {
    ChainIntro(heap, chain, 0);
  }

  /** The record at position i of a linked chain, and its link to the next one. */
  lemma LinkAt(heap: map<Ptr, Entry>, chain: seq<Ptr>, i: nat)
    requires Linked(heap, chain) && i < |chain|
    ensures chain[i] != NULL && heap[chain[i]].isHead == (i == 0)
    ensures i + 1 < |chain| ==> heap[chain[i]].next == chain[i + 1] && heap[chain[i + 1]].previous == chain[i]
  {
    LinkedElim(heap, chain);
  }

  /** A linked chain never revisits a record: equal records would have equal
      successors all the way to the tail, whose `next` is NULL. */
  lemma LinkedDistinct(heap: map<Ptr, Entry>, chain: seq<Ptr>)
    requires Linked(heap, chain)
    ensures forall i, j :: 0 <= i < j < |chain| ==> chain[i] != chain[j]
  {
    forall i, j | 0 <= i < j < |chain|
      ensures chain[i] != chain[j]
    {
      DistinctAt(heap, chain, i, j);
    }
  }

  lemma {:induction false} DistinctAt(heap: map<Ptr, Entry>, chain: seq<Ptr>, i: nat, j: nat)
    requires Linked(heap, chain) && i < j < |chain|
    ensures chain[i] != chain[j]
    decreases |chain| - j
  {
    LinkedElim(heap, chain);
    assert heap[chain[i]].next == chain[i + 1];
    if j < |chain| - 1 {
      assert heap[chain[j]].next == chain[j + 1];
      DistinctAt(heap, chain, i + 1, j + 1);
    }
  }

  /** The record at position k of a linked chain is found at position k. */
  lemma LinkedIndexOf(heap: map<Ptr, Entry>, chain: seq<Ptr>, k: nat)
    requires Linked(heap, chain) && k < |chain|
    ensures IndexOf(chain, chain[k]) == k
  {
    LinkedDistinct(heap, chain);
    IndexOfDistinct(chain, k);
  }

  /** The payloads behind the sentinel, in `next` order. */
  ghost function Payloads(heap: map<Ptr, Entry>, chain: seq<Ptr>): (bs: seq<Block>)
    requires Linked(heap, chain)
    ensures |bs| == |chain| - 1
  {
    Project(heap, chain[1..])
  }

  /** The i-th payload is the block of the record at chain position i + 1. */
  lemma PayloadAt(heap: map<Ptr, Entry>, chain: seq<Ptr>, i: nat)
    requires Linked(heap, chain) && i < |chain| - 1
    ensures Payloads(heap, chain)[i] == heap[chain[i + 1]].block
  {
  }

  /** Linking a fresh record after the tail keeps the list linked and appends its payload. */
  lemma LinkedAppend(heap: map<Ptr, Entry>, chain: seq<Ptr>, rec: Ptr, data: Ptr, size: usize, tid: nat)
    requires Linked(heap, chain) && rec != NULL && rec !in heap
    ensures var last := chain[|chain| - 1];
      var h := heap[last := heap[last].(next := rec)][rec := NewEntry(last, data, size, tid)];
      Linked(h, chain + [rec]) &&
      Payloads(h, chain + [rec]) == Payloads(heap, chain) + [Block(data, size, tid, false, 0, 0)]
  {
    var last := chain[|chain| - 1];
    var h := heap[last := heap[last].(next := rec)][rec := NewEntry(last, data, size, tid)];
    var c := chain + [rec];
    assert forall i :: 0 <= i < |chain| ==> c[i] == chain[i];
    LinkedElim(heap, chain);
    LinkedIntro(h, c);
    assert Payloads(h, c) == Payloads(heap, chain) + [Block(data, size, tid, false, 0, 0)];
  }

  /** Unlinking and destroying the tail keeps the list linked and drops the last payload. */
  lemma LinkedDropLast(heap: map<Ptr, Entry>, chain: seq<Ptr>)
    requires Linked(heap, chain) && |chain| >= 2
    ensures var last := chain[|chain| - 1]; var pre := chain[|chain| - 2];
      heap[last].previous == pre && !heap[last].isHead &&
      var h := heap[pre := heap[pre].(next := NULL)] - {last};
      Linked(h, chain[..|chain| - 1]) &&
      Payloads(h, chain[..|chain| - 1]) == Payloads(heap, chain)[..|chain| - 2]
  {
    var n := |chain|;
    LinkedElim(heap, chain);
    assert heap[chain[n - 2]].next == chain[n - 1];
    var h := heap[chain[n - 2] := heap[chain[n - 2]].(next := NULL)] - {chain[n - 1]};
    var c := chain[..n - 1];
    LinkedDistinct(heap, chain);
    LinkedIntro(h, c);
    assert Payloads(h, c) == Payloads(heap, chain)[..n - 2];
  }

  /** The arena after the record `e` is unlinked from its neighbours `pre`
      and `nxt` (each relinked only when present) and destroyed. */
  function Unlink(heap: map<Ptr, Entry>, pre: Ptr, e: Ptr, nxt: Ptr): map<Ptr, Entry>
  {
    var h1 := if pre != NULL && pre in heap then heap[pre := heap[pre].(next := nxt)] else heap;
    var h2 := if nxt != NULL && nxt in h1 then h1[nxt := h1[nxt].(previous := pre)] else h1;
    h2 - {e}
  }

  /** The neighbours of the interior record at position k. */
  lemma SpliceNeighbours(heap: map<Ptr, Entry>, chain: seq<Ptr>, k: nat)
    requires Linked(heap, chain) && 1 <= k < |chain| - 1
    ensures chain[k] in heap && heap[chain[k]].previous == chain[k - 1] && heap[chain[k]].next == chain[k + 1]
  {
    LinkedElim(heap, chain);
    LinkAt(heap, chain, k - 1);
    LinkAt(heap, chain, k);
  }

  /** Splicing out the interior record `e` at position k, between `pre` and
      `nxt`, keeps the list linked and drops its payload. */
  lemma LinkedSplice(heap: map<Ptr, Entry>, chain: seq<Ptr>, k: nat, pre: Ptr, e: Ptr, nxt: Ptr)
    requires Linked(heap, chain) && 1 <= k < |chain| - 1
    requires pre == chain[k - 1] && e == chain[k] && nxt == chain[k + 1]
    ensures Linked(Unlink(heap, pre, e, nxt), RemoveAt(chain, k))
    ensures var c := RemoveAt(chain, k);
      c[0] == chain[0] && c[|c| - 1] == chain[|chain| - 1] && c[1] == (if k == 1 then chain[2] else chain[1])
    ensures chain[1] == e <==> k == 1
    ensures Payloads(Unlink(heap, pre, e, nxt), RemoveAt(chain, k)) == RemoveAt(Payloads(heap, chain), k - 1)
  {
    SpliceNeighbours(heap, chain, k);
    LinkedDistinct(heap, chain);
    var h := Unlink(heap, pre, e, nxt);
    var c := RemoveAt(chain, k);
    SpliceFacts(heap, chain, k);
    SpliceLinks(heap, chain, k);
    LinkedIntro(h, c);
    SplicePayloads(heap, h, chain, k);
  }

  /** Pointwise facts about the spliced chain and arena. */
  lemma SpliceFacts(heap: map<Ptr, Entry>, chain: seq<Ptr>, k: nat)
    requires Linked(heap, chain) && 1 <= k < |chain| - 1
    ensures var h := Unlink(heap, chain[k - 1], chain[k], chain[k + 1]); var c := RemoveAt(chain, k);
      |h| == |c| &&
      (forall i :: 0 <= i < |c| ==> c[i] != NULL && c[i] in h && h[c[i]].isHead == (i == 0)) &&
      h[c[0]].previous == NULL &&
      h[c[|c| - 1]].next == NULL
    ensures var h := Unlink(heap, chain[k - 1], chain[k], chain[k + 1]);
      forall i :: 0 <= i < |chain| && i != k ==> chain[i] in h && h[chain[i]].block == heap[chain[i]].block
  {
    var c := RemoveAt(chain, k);
    assert forall i :: 0 <= i < k ==> c[i] == chain[i];
    assert forall i :: k <= i < |c| ==> c[i] == chain[i + 1];
    LinkedElim(heap, chain);
    LinkedDistinct(heap, chain);
  }

  /** The payloads of the spliced chain: every payload but the k-th, in order. */
  lemma SplicePayloads(heap: map<Ptr, Entry>, h: map<Ptr, Entry>, chain: seq<Ptr>, k: nat)
    requires 1 <= k < |chain| - 1
    requires forall i :: 0 <= i < |chain| ==> chain[i] in heap
    requires forall i :: 0 <= i < |chain| && i != k ==> chain[i] in h && h[chain[i]].block == heap[chain[i]].block
    ensures forall p :: p in RemoveAt(chain, k)[1..] ==> p in h
    ensures Project(h, RemoveAt(chain, k)[1..]) == RemoveAt(Project(heap, chain[1..]), k - 1)
  {
  }

  /** The links of the spliced chain. */
  lemma SpliceLinks(heap: map<Ptr, Entry>, chain: seq<Ptr>, k: nat)
    requires Linked(heap, chain) && 1 <= k < |chain| - 1
    ensures var h := Unlink(heap, chain[k - 1], chain[k], chain[k + 1]); var c := RemoveAt(chain, k);
      forall i :: 0 <= i < |c| ==> c[i] in h
    ensures var h := Unlink(heap, chain[k - 1], chain[k], chain[k + 1]); var c := RemoveAt(chain, k);
      forall i, j :: 0 <= i && j == i + 1 && j < |c| ==> h[c[i]].next == c[j] && h[c[j]].previous == c[i]
  {
    LinkedDistinct(heap, chain);
    LinkedElim(heap, chain);
    var h := Unlink(heap, chain[k - 1], chain[k], chain[k + 1]);
    var c := RemoveAt(chain, k);
    assert forall i :: 0 <= i < k ==> c[i] == chain[i];
    assert forall i :: k <= i < |c| ==> c[i] == chain[i + 1];
    assert forall i :: 0 <= i < |c| ==> c[i] != chain[k];
    forall i, j | 0 <= i && j == i + 1 && j < |c|
      ensures h[c[i]].next == c[j] && h[c[j]].previous == c[i]
    {
      if j < k {
        assert heap[chain[i]].next == chain[j];
      } else if j == k {
        assert c[i] == chain[k - 1] && c[j] == chain[k + 1];
      } else {
        assert heap[chain[i + 1]].next == chain[j + 1];
      }
    }
  }

  /** Overwriting the payload at position k keeps the list linked. */
  lemma LinkedSetBlock(heap: map<Ptr, Entry>, chain: seq<Ptr>, k: nat, b: Block)
    requires Linked(heap, chain) && 1 <= k < |chain|
    ensures var h := heap[chain[k] := heap[chain[k]].(block := b)];
      Linked(h, chain) && Payloads(h, chain) == Payloads(heap, chain)[k - 1 := b]
  {
    var h := heap[chain[k] := heap[chain[k]].(block := b)];
    LinkedDistinct(heap, chain);
    LinkedElim(heap, chain);
    LinkedIntro(h, chain);
    assert Payloads(h, chain) == Payloads(heap, chain)[k - 1 := b];
  }

  /** The shape of a list object: its arena is one linked list rooted at
      `head`, `first` and `last` name its physical ends, and `len` counts at
      least its entries. */
  ghost predicate Shaped(heap: map<Ptr, Entry>, chain: seq<Ptr>, head: Ptr, first: Ptr, last: Ptr, len: nat)
  {
    Linked(heap, chain) && chain[0] == head &&
    first == (if |chain| == 1 then head else chain[1]) &&
    last == chain[|chain| - 1] &&
    len >= |chain| - 1
  }

  /** Splicing out an interior entry keeps the shape, with `first` moved on
      when it was the spliced entry. */
  lemma ShapedSplice(heap: map<Ptr, Entry>, chain: seq<Ptr>, head: Ptr, first: Ptr, last: Ptr, len: nat,
                     k: nat, pre: Ptr, e: Ptr, nxt: Ptr)
    requires Shaped(heap, chain, head, first, last, len) && 1 <= k < |chain| - 1
    requires pre == chain[k - 1] && e == chain[k] && nxt == chain[k + 1]
    ensures Shaped(Unlink(heap, pre, e, nxt), RemoveAt(chain, k), head, if first == e then nxt else first, last, len)
    ensures Payloads(Unlink(heap, pre, e, nxt), RemoveAt(chain, k)) == RemoveAt(Payloads(heap, chain), k - 1)
  {
    LinkedSplice(heap, chain, k, pre, e, nxt);
  }

  /** Popping the tail of a list with at least one entry keeps the shape:
      its predecessor becomes the tail, and the first entry when it is the
      sentinel. */
  lemma ShapedDropLast(heap: map<Ptr, Entry>, chain: seq<Ptr>, head: Ptr, first: Ptr, last: Ptr, len: nat)
    requires Shaped(heap, chain, head, first, last, len) && |chain| >= 2
    ensures last in heap && heap[last].previous == chain[|chain| - 2] && !heap[last].isHead && len >= 1
    ensures var pre := heap[last].previous; var h := heap[pre := heap[pre].(next := NULL)] - {last};
      pre in h &&
      Shaped(h, chain[..|chain| - 1], head, if h[pre].isHead then pre else first, pre, len - 1) &&
      Payloads(h, chain[..|chain| - 1]) == Payloads(heap, chain)[..|chain| - 2]
  {
    LinkAt(heap, chain, |chain| - 1);
    LinkAt(heap, chain, |chain| - 2);
    LinkedDropLast(heap, chain);
  }

  class LinkedList {
    var heap: map<Ptr, Entry>
    const head: Ptr
    var len: nat
    var firstEntry: Ptr
    var lastEntry: Ptr
    var lastAccess: Ptr
    ghost var chain: seq<Ptr>

    /** The arena is one linked list rooted at `head`, the first/last pointers
        name its physical ends, and `len` counts at least its entries. */
    ghost predicate Valid()
      reads this
    {
      Shaped(heap, chain, head, firstEntry, lastEntry, len)
    }

    /** `len` equals the number of records reachable after the sentinel. */
    ghost predicate Exact()
      reads this
    {
      len == |chain| - 1
    }

    /** The payloads of the entries, in `next` order, sentinel excluded. */
    ghost function Blocks(): (bs: seq<Block>)
      reads this`heap, this`chain
      requires Linked(heap, chain)
    {
      Payloads(heap, chain)
    }

    /** linked_list_new: only the sentinel, which is both first and last. */
    constructor (rec: Ptr, tid: nat)
      requires rec != NULL
      ensures Valid() && Exact()
      ensures chain == [rec] && head == rec && heap == map[rec := Entry(NULL, Block(NULL, 0, tid, false, 0, 0), true, NULL)]
      ensures firstEntry == head && lastEntry == head && len == 0 && lastAccess == NULL
      ensures Blocks() == []
    {
      head := rec;
      heap := map[rec := Entry(NULL, Block(NULL, 0, tid, false, 0, 0), true, NULL)];
      len := 0;
      firstEntry := rec;
      lastEntry := rec;
      lastAccess := NULL;
      chain := [rec];
    }

    /** Overwrite the payload of the live record `r` (the entry setters, and the
        direct field writes of the cache manager). */
    method SetBlock(r: Ptr, b: Block)
      requires Valid() && r in chain && r != head
      modifies this`heap
      ensures Valid() && heap == old(heap)[r := old(heap)[r].(block := b)]
      ensures Blocks() == old(Blocks())[IndexOf(chain, r) - 1 := b]
    {
      LinkedSetBlock(heap, chain, IndexOf(chain, r), b);
      heap := heap[r := heap[r].(block := b)];
    }

    /** linked_list_push: append a record at the physical tail. `rec` is the
        address the record allocator returned. */
    method Push(data: Ptr, size: usize, tid: nat, rec: Ptr)
      requires Valid()
      requires rec != NULL && rec !in heap
      modifies this
      ensures Valid()
      ensures chain == old(chain) + [rec]
      ensures heap == old(heap)[old(lastEntry) := old(heap)[old(lastEntry)].(next := rec)][rec := NewEntry(old(lastEntry), data, size, tid)]
      ensures Blocks() == old(Blocks()) + [Block(data, size, tid, false, 0, 0)]
      ensures lastEntry == rec && len == old(len) + 1 && lastAccess == old(lastAccess)
      ensures firstEntry == if old(|chain|) == 1 then rec else old(firstEntry)
      ensures old(Exact()) ==> Exact()
    {
      LinkedAppend(heap, chain, rec, data, size, tid);
      LinkAt(heap, chain, if |chain| == 1 then 0 else 1);
      var last := lastEntry;
      var h := heap[last := heap[last].(next := rec)][rec := NewEntry(last, data, size, tid)];
      heap, firstEntry, lastEntry, len, chain :=
        h, (if heap[firstEntry].isHead then rec else firstEntry), rec, len + 1, chain + [rec];
    }

    /** linked_list_pop: remove and destroy the physical tail; nothing happens
        when only the sentinel is left. */
    method Pop()
      requires Valid()
      modifies this
      ensures Valid() && lastAccess == old(lastAccess)
      ensures old(|chain|) == 1 ==> heap == old(heap) && chain == old(chain) && len == old(len)
      ensures old(|chain|) > 1 ==>
        chain == RemoveAt(old(chain), old(|chain|) - 1) &&
        Blocks() == RemoveAt(old(Blocks()), old(|Blocks()|) - 1) &&
        old(lastEntry) !in heap && len == old(len) - 1
      ensures firstEntry == if |chain| == 1 then head else old(firstEntry)
      ensures old(Exact()) ==> Exact()
    {
      LinkAt(heap, chain, |chain| - 1);
      if heap[lastEntry].isHead {
        return;
      }
      DropTail();
    }

    /** The unlinking half of pop, on a list with at least one entry. */
    method DropTail()
      requires Valid() && |chain| >= 2
      modifies this`heap, this`lastEntry, this`firstEntry, this`len, this`chain
      ensures Valid()
      ensures chain == RemoveAt(old(chain), old(|chain|) - 1)
      ensures Blocks() == RemoveAt(old(Blocks()), old(|Blocks()|) - 1)
      ensures old(lastEntry) !in heap && len == old(len) - 1
      ensures firstEntry == if |chain| == 1 then head else old(firstEntry)
    {
      ShapedDropLast(heap, chain, head, firstEntry, lastEntry, len);
      RemoveAtLast(chain);
      RemoveAtLast(Blocks());
      var temp := lastEntry;
      var pre := heap[temp].previous;
      var h := heap[pre := heap[pre].(next := NULL)] - {temp};
      heap, lastEntry, firstEntry, len, chain :=
        h, pre, (if h[pre].isHead then pre else firstEntry), len - 1, chain[..|chain| - 1];
    }

    /** linked_list_forEach: visit the entries in `next` order with indices
        0, 1, 2, ... until the worker stops the walk. */
    method ForEach<S>(worker: (S, Block, nat) -> (S, Step), init: S) returns (found: Ptr, acc: S)
      requires Valid()
      ensures var w := Walk(Blocks(), 0, init, worker);
        acc == w.0 && found == (if w.1.Some? then chain[w.1.value + 1] else NULL) && (found == NULL <==> w.1.None?)
    {
      if len == 0 {
        return NULL, init;
      }
      var entry := firstEntry;
      LinkAt(heap, chain, if |chain| == 1 then 0 else 1);
      if heap[entry].isHead {
        return NULL, init;
      }
      var i: nat := 0;
      acc := init;
      while entry != NULL
        invariant i < |chain|
        invariant entry == if i + 1 < |chain| then chain[i + 1] else NULL
        invariant entry == NULL ==> i + 1 >= |chain|
        invariant Walk(Blocks(), i, acc, worker) == Walk(Blocks(), 0, init, worker)
        decreases |chain| - i
      {
        LinkAt(heap, chain, i + 1);
        if i + 2 < |chain| {
          LinkAt(heap, chain, i + 2);
        }
        PayloadAt(heap, chain, i);
        var next := heap[entry].next;
        var res := worker(acc, heap[entry].block, i);
        acc := res.0;
        if res.1 == Yield {
          return entry, acc;
        } else if res.1 == Brake {
          return NULL, acc;
        }
        entry := next;
        i := i + 1;
      }
      found := NULL;
    }

    /** Records an access to the entry at position k and bumps its weight. */
    method Touch(r: Ptr, ghost k: nat)
      requires Valid() && 1 <= k < |chain| && r == chain[k]
      modifies this`heap, this`lastAccess
      ensures Valid() && lastAccess == r
      ensures heap == old(heap)[r := Bumped(old(heap)[r])]
    {
      LinkedSetBlock(heap, chain, k, Bumped(heap[r]).block);
      lastAccess := r;
      heap := heap[r := Bumped(heap[r])];
    }

    /** linked_list_getByPtr: the first entry whose data is `key`; a hit
        records the access and bumps the entry's 8-bit weight (wrapping). */
    method GetByPtr(key: Ptr) returns (r: Ptr)
      requires Valid()
      modifies this`heap, this`lastAccess
      ensures Valid()
      ensures var k := FirstMatch(old(Blocks()), 0, DataIs(key));
        if key == NULL || k.None? then
          r == NULL && heap == old(heap) && lastAccess == old(lastAccess)
        else
          r != NULL && r == chain[k.value + 1] && lastAccess == r && heap == old(heap)[r := Bumped(old(heap)[r])]
    {
      if key == NULL {
        return NULL;
      }
      var u;
      r, u := ForEach(SearchWorker(DataIs(key)), ());
      SearchWalk(Blocks(), 0, DataIs(key));
      if r != NULL {
        Touch(r, FirstMatch(Blocks(), 0, DataIs(key)).value + 1);
      }
    }

    /** linked_list_hasPtr: whether some entry tracks `key` (never for NULL). */
    method HasPtr(key: Ptr) returns (b: bool)
      requires Valid()
      modifies this`lastAccess
      ensures Valid()
      ensures b <==> key != NULL && exists j :: 0 <= j < |Blocks()| && Blocks()[j].data == key
      ensures var k := FirstMatch(Blocks(), 0, DataIs(key));
        lastAccess == if b then chain[k.value + 1] else old(lastAccess)
    {
      if key == NULL {
        return false;
      }
      var temp, u := ForEach(SearchWorker(DataIs(key)), ());
      SearchWalk(Blocks(), 0, DataIs(key));
      if temp != NULL {
        lastAccess := temp;
        return true;
      }
      return false;
    }

    /** linked_list_getByIndex: the entry at 0-based position `index`, NULL
        when `index > len` or there is no such entry; a hit records the access
        and bumps the weight. */
    method GetByIndex(index: nat) returns (r: Ptr)
      requires Valid()
      modifies this`heap, this`lastAccess
      ensures Valid()
      ensures index < |old(Blocks())| ==>
        r != NULL && r == chain[index + 1] && lastAccess == r && heap == old(heap)[r := Bumped(old(heap)[r])]
      ensures index >= |old(Blocks())| ==>
        r == NULL && heap == old(heap) && lastAccess == old(lastAccess)
    {
      if len < index {
        return NULL;
      }
      var u;
      r, u := ForEach(IndexWorker(index), ());
      IndexWalk(Blocks(), 0, index);
      if r != NULL {
        Touch(r, index + 1);
      }
    }

    /** linked_list_getById: the first entry tagged `id`; a hit records the
        access and bumps the weight. */
    method GetById(id: u16) returns (r: Ptr)
      requires Valid()
      modifies this`heap, this`lastAccess
      ensures Valid()
      ensures var k := FirstMatch(old(Blocks()), 0, IdIs(id));
        if k.None? then
          r == NULL && heap == old(heap) && lastAccess == old(lastAccess)
        else
          r != NULL && r == chain[k.value + 1] && lastAccess == r && heap == old(heap)[r := Bumped(old(heap)[r])]
    {
      var u;
      r, u := ForEach(SearchWorker(IdIs(id)), ());
      SearchWalk(Blocks(), 0, IdIs(id));
      if r != NULL {
        Touch(r, FirstMatch(Blocks(), 0, IdIs(id)).value + 1);
      }
    }

    /** linked_list_hasId: whether some entry is tagged `id` (through getById,
        so a hit also records the first such entry and bumps its weight). */
    method HasId(id: u16) returns (b: bool)
      requires Valid()
      modifies this`heap, this`lastAccess
      ensures Valid()
      ensures b <==> exists j :: 0 <= j < |old(Blocks())| && old(Blocks())[j].blockId == id
      ensures var k := FirstMatch(old(Blocks()), 0, IdIs(id));
        if k.None? then
          heap == old(heap) && lastAccess == old(lastAccess)
        else
          var r := chain[k.value + 1];
          lastAccess == r && heap == old(heap)[r := Bumped(old(heap)[r])]
    {
      var r := GetById(id);
      b := r != NULL;
    }

    /** Splice the interior record `e`, at chain position k, out of the chain
        and destroy it. */
    method Splice(e: Ptr, ghost k: nat)
      requires Valid() && 1 <= k < |chain| - 1 && chain[k] == e
      modifies this`heap, this`firstEntry, this`chain
      ensures Valid() && e !in heap
      ensures chain == RemoveAt(old(chain), k)
      ensures Blocks() == RemoveAt(old(Blocks()), k - 1)
      ensures firstEntry == if k == 1 then old(chain)[2] else old(firstEntry)
    {
      SpliceNeighbours(heap, chain, k);
      var pre := heap[e].previous;
      var nxt := heap[e].next;
      ShapedSplice(heap, chain, head, firstEntry, lastEntry, len, k, pre, e, nxt);
      heap, firstEntry, chain := Unlink(heap, pre, e, nxt), (if firstEntry == e then nxt else firstEntry), RemoveAt(chain, k);
    }

    /** Take the entry `e`, at chain position k, off the list and destroy it:
        the tail goes through pop (which decrements `len`), any other entry is
        spliced out (which does not). */
    method Unchain(e: Ptr, ghost k: nat)
      requires Valid() && 1 <= k < |chain| && chain[k] == e
      modifies this
      ensures Valid() && e !in heap && lastAccess == old(lastAccess)
      ensures chain == RemoveAt(old(chain), k) && Blocks() == RemoveAt(old(Blocks()), k - 1)
      ensures len == if k == old(|chain|) - 1 then old(len) - 1 else old(len)
    {
      if lastEntry == e {
        LinkedIndexOf(heap, chain, k);
        LinkedIndexOf(heap, chain, |chain| - 1);
        Pop();
      } else {
        Splice(e, k);
      }
    }

    /** linked_list_removeEntry: NULL is refused; the tail goes through pop;
        any other entry is spliced out and destroyed, but `len` is left as it was. */
    method RemoveEntry(e: Ptr) returns (b: bool)
      requires Valid()
      requires e == NULL || (e in chain && e != head)
      modifies this
      ensures Valid() && b == (e != NULL) && lastAccess == old(lastAccess)
      ensures e == NULL ==> heap == old(heap) && chain == old(chain) && len == old(len) && firstEntry == old(firstEntry)
      ensures e != NULL ==> (e !in heap &&
        var k := IndexOf(old(chain), e);
        chain == RemoveAt(old(chain), k) && Blocks() == RemoveAt(old(Blocks()), k - 1) &&
        len == if e == old(lastEntry) then old(len) - 1 else old(len))
    {
      if e == NULL {
        return false;
      }
      ghost var k := IndexOf(chain, e);
      LinkedIndexOf(heap, chain, |chain| - 1);
      Unchain(e, k);
      return true;
    }

    /** The removal the source evidently intends: like RemoveEntry, but every
        successful removal decrements `len`. */
    method RemoveEntryCounted(e: Ptr) returns (b: bool)
      requires Valid()
      requires e == NULL || (e in chain && e != head)
      modifies this
      ensures Valid() && b == (e != NULL) && lastAccess == old(lastAccess)
      ensures e == NULL ==> heap == old(heap) && chain == old(chain) && len == old(len)
      ensures e != NULL ==> (e !in heap &&
        var k := IndexOf(old(chain), e);
        chain == RemoveAt(old(chain), k) && Blocks() == RemoveAt(old(Blocks()), k - 1) &&
        len == old(len) - 1)
      ensures old(Exact()) ==> Exact()
    {
      if e == NULL {
        return false;
      }
      var wasLast := lastEntry == e;
      ghost var k := IndexOf(chain, e);
      Unchain(e, k);
      if !wasLast {
        len := len - 1;
      }
      return true;
    }

    /** linked_list_removeEntryByPtr: remove the first entry tracking `key`;
        NULL or an untracked key changes nothing. */
    method RemoveEntryByPtr(key: Ptr)
      requires Valid()
      modifies this
      ensures Valid() && lastAccess == old(lastAccess)
      ensures var k := FirstMatch(old(Blocks()), 0, DataIs(key));
        if key == NULL || k.None? then
          heap == old(heap) && chain == old(chain) && len == old(len)
        else
          old(chain)[k.value + 1] !in heap &&
          chain == RemoveAt(old(chain), k.value + 1) &&
          Blocks() == RemoveAt(old(Blocks()), k.value) &&
          len == if old(chain)[k.value + 1] == old(lastEntry) then old(len) - 1 else old(len)
    {
      if key == NULL {
        return;
      }
      var entry, u := ForEach(SearchWorker(DataIs(key)), ());
      SearchWalk(Blocks(), 0, DataIs(key));
      if entry != NULL {
        LinkedIndexOf(heap, chain, FirstMatch(Blocks(), 0, DataIs(key)).value + 1);
      }
      var ok := RemoveEntry(entry);
    }
  }
}
