/**
 `pim_malloc` and `pim_free` as the program runs them, over linked pools: each refines the operation on the
 allocator value of the same name. Where the program ends with an assertion the methods report failure.
 */
module PimMems {
  import opened PoolBits
  import opened PoolHeap
  import opened PoolInv
  import opened PoolFree
  import opened MemPools

  ghost predicate Distinct(ps: seq<MemPool>) {
    forall i, j {:trigger ps[i], ps[j]} :: 0 <= i < j < |ps| ==>
      ps[i] != ps[j] && ps[i].bit_vector != ps[j].bit_vector && ps[i].head_page != ps[j].head_page
  }

  ghost function Bits(ps: seq<MemPool>): set<array<char>> {
    set p | p in ps :: p.bit_vector
  }

  ghost function Pages(ps: seq<MemPool>): set<array<Page>> {
    set p | p in ps :: p.head_page
  }

  ghost predicate AllSized(ps: seq<MemPool>)
    reads Bits(ps), Pages(ps)
  {
    forall i {:trigger ps[i]} :: 0 <= i < |ps| ==> ps[i].Sized()
  }

  /** The pool behind pool i in the list. */
  function After(ps: seq<MemPool>, i: int): MemPool? {
    if 0 <= i + 1 < |ps| then ps[i + 1] else null
  }

  function Before(ps: seq<MemPool>, i: int): MemPool? {
    if 0 < i <= |ps| then ps[i - 1] else null
  }

  ghost predicate Links(ps: seq<MemPool>)
    reads ps`next, ps`prev
  {
    forall i {:trigger ps[i]} :: 0 <= i < |ps| ==> ps[i].next == After(ps, i) && ps[i].prev == Before(ps, i)
  }

  lemma NextIs(ps: seq<MemPool>, i: nat)
    requires Links(ps) && i < |ps|
    ensures ps[i].next == After(ps, i)
  {
  }

  ghost function Values(ps: seq<MemPool>): (vs: seq<Pool>)
    requires AllSized(ps)
    reads ps, Bits(ps), Pages(ps)
    ensures |vs| == |ps|
  {
    seq(|ps|, i requires 0 <= i < |ps| && AllSized(ps) reads ps, Bits(ps), Pages(ps) => ps[i].Value())
  }

  class PimMem {
    const base: int
    const limit: nat
    var total_size: nat
    var ntotal_mem_pools: nat
    var curr_mem_pool: MemPool?
    var head_mem_pool: MemPool?
    var tail_mem_pool: MemPool?
    /** The pools in list order, and the current one's place. */
    ghost var pools: seq<MemPool>
    ghost var at: int

    /** A doubly linked list of separate pools. */
    ghost predicate Chained()
      reads this, pools, Bits(pools), Pages(pools)
    {
      && Distinct(pools) && AllSized(pools) && Links(pools) && ntotal_mem_pools == |pools|
      && head_mem_pool == After(pools, -1) && tail_mem_pool == Before(pools, |pools|)
    }

    ghost predicate Valid()
      reads this, pools, Bits(pools), Pages(pools)
    {
      Chained() && Shape(Model()) && curr_mem_pool == if at == -1 then null else pools[at]
    }

    ghost function Model(): Heap
      requires AllSized(pools)
      reads this, pools, Bits(pools), Pages(pools)
    {
      Heap(base, limit, Values(pools), at, total_size)
    }

    constructor (base: int, limit: nat)
      ensures Valid() && Model() == Heap(base, limit, [], -1, 0) && pools == []
    {
      this.base, this.limit := base, limit;
      total_size, ntotal_mem_pools := 0, 0;
      curr_mem_pool, head_mem_pool, tail_mem_pool := null, null, null;
      pools, at := [], -1;
    }

    /** `mmap_drv`: the next bytes of the window; it fails when the window is used up. */
    method MmapDrv(size: nat) returns (ptr: int, ok: bool)
      modifies `total_size
      ensures ptr == base + old(total_size) && total_size == old(total_size) + size && ok == (total_size <= limit)
    {
      ptr := base + total_size;
      total_size := total_size + size;
      ok := total_size <= limit;
    }

    /** The two links that list_add_tail sets. */
    method Link(pool: MemPool)
      requires Distinct(pools) && Links(pools) && pools != [] && tail_mem_pool == pools[|pools| - 1]
      requires Separate(pools, pool) && pool.next == null
      modifies `tail_mem_pool, tail_mem_pool`next, pool`prev
      ensures Links(pools + [pool]) && tail_mem_pool == pool
    {
      ghost var ps, n := pools, |pools|;
      assert forall i :: 0 <= i < n - 1 ==> ps[i] != ps[n - 1];
      pool.prev := tail_mem_pool;
      tail_mem_pool.next := pool;
      tail_mem_pool := pool;
    }

    /** list_add_tail, after the pool has been made. */
    method AddTail(pool: MemPool)
      requires Chained() && pools != [] && pool.Sized() && pool.next == null
      requires Separate(pools, pool)
      modifies `tail_mem_pool, `pools, `ntotal_mem_pools, tail_mem_pool`next, pool`prev
      ensures Chained() && pools == old(pools) + [pool]
      ensures Values(pools) == old(Values(pools)) + [old(pool.Value())]
    {
      hide Distinct, Links, Separate, MemPool.Value, MemPool.Sized, PoolHeap.Shape;
      ghost var ps := pools;
      ghost var vs, v := Values(ps), pool.Value();
      ValuesAt(ps);
      DistinctSnoc(ps, pool);
      Link(pool);
      ntotal_mem_pools := ntotal_mem_pools + 1;
      pools := ps + [pool];
      ValuesAre(pools, vs + [v]);
    }

    // ----- changes to one pool

    /** `_set_bit_vector` on the k'th pool. */
    method TakeAt(pool: MemPool, ghost k: nat, n: nat) returns (idx: int)
      requires Chained() && k < |pools| && pool == pools[k] && PoolShape(pool.Value()) && n > 0
      modifies pool`curr_idx, pool`nfree_pages, pool.bit_vector
      ensures Chained() && Values(pools) == old(Values(pools))[k := SetBits(old(pool.Value()), n).0]
      ensures idx == SetBits(old(pool.Value()), n).1
    {
      hide Distinct, Links, Values, MemPool.Value, MemPool.Sized, SetBits, PoolShape;
      ghost var vs := Values(pools);
      ValuesAt(pools);
      OthersApart(pools, k);
      idx := pool.SetBitVector(n);
      ValuesAre(pools, vs[k := pool.Value()]);
    }

    method NoteAt(pool: MemPool, ghost k: nat, idx: nat, n: nat)
      requires Chained() && k < |pools| && pool == pools[k] && idx < NUM_PAGES
      modifies pool.head_page
      ensures Chained() && |old(pool.Value()).sizes| == NUM_PAGES
      ensures Values(pools) == old(Values(pools))[k := old(pool.Value()).(sizes := old(pool.Value()).sizes[idx := n])]
    {
      hide Distinct, Links, Values, MemPool.Value, MemPool.Sized, ClearBits;
      ghost var vs := Values(pools);
      ValuesAt(pools);
      OthersApart(pools, k);
      ValueLengths(pool);
      pool.NoteSize(idx, n);
      ValuesAre(pools, vs[k := pool.Value()]);
    }

    method ClearAt(pool: MemPool, ghost k: nat, idx: nat, n: nat)
      requires Chained() && k < |pools| && pool == pools[k] && idx + n <= NUM_PAGES
      modifies pool`curr_idx, pool`nfree_pages, pool.bit_vector
      ensures Chained() && |old(pool.Value()).bits| == NUM_PAGES
      ensures Values(pools) == old(Values(pools))[k := ClearBits(old(pool.Value()), idx, n)]
    {
      hide Distinct, Links, Values, MemPool.Value, MemPool.Sized, ClearBits;
      ghost var vs := Values(pools);
      ValuesAt(pools);
      OthersApart(pools, k);
      ValueLengths(pool);
      pool.ClrBitVector(idx, n);
      ValuesAre(pools, vs[k := pool.Value()]);
    }

    /** Sets the large flag and the count of the k'th pool. */
    method FlagAt(pool: MemPool, ghost k: nat, large: bool, nfree: int)
      requires Chained() && k < |pools| && pool == pools[k]
      modifies pool`large_mem_pool, pool`nfree_pages
      ensures Chained() && Values(pools) == old(Values(pools))[k := old(pool.Value()).(large := large, nfree := nfree)]
    {
      hide Distinct, Links, Values, MemPool.Value, MemPool.Sized;
      ghost var vs := Values(pools);
      ValuesAt(pools);
      OthersApart(pools, k);
      pool.SetFlag(large, nfree);
      ValuesAre(pools, vs[k := pool.Value()]);
    }

    // ----- new pools

    /** `_mem_pool_allocation` */
    method NewPool(nfree: int, large: bool) returns (pool: MemPool, ok: bool)
      modifies `total_size
      ensures ok == (total_size <= limit) && total_size == old(total_size) + HUGE_PAGE_SIZE
      ensures fresh(pool) && fresh(pool.bit_vector) && fresh(pool.head_page) && pool.next == null && pool.prev == null
      ensures pool.Sized() && pool.Value() == FreshPool(base + old(total_size)).(nfree := nfree, large := large)
    {
      var start;
      start, ok := MmapDrv(HUGE_PAGE_SIZE);
      pool := new MemPool(start, nfree, large);
    }

    /** A new pool at the end of the list. */
    method GrowOne() returns (ok: bool)
      requires Chained() && pools != []
      modifies `total_size, `tail_mem_pool, `pools, `ntotal_mem_pools, tail_mem_pool`next
      ensures ok == (old(total_size) + HUGE_PAGE_SIZE <= limit)
      ensures ok ==> Chained() && pools == old(pools) + [tail_mem_pool] && fresh(tail_mem_pool)
      ensures ok ==> fresh(tail_mem_pool.bit_vector) && fresh(tail_mem_pool.head_page)
      ensures ok ==> total_size == old(total_size) + HUGE_PAGE_SIZE
      ensures ok ==> Values(pools) == old(Values(pools)) + [FreshPool(base + old(total_size))]
    {
      hide Values, Distinct, Links, MemPool.Value, MemPool.Sized, FreshPool;
      FreshIs(base + total_size);
      ghost var vs := Values(pools);
      ValuesAt(pools);
      var pool;
      pool, ok := NewPool(NUM_PAGES, false);
      if ok {
        ValuesAre(pools, vs);
        AddTail(pool);
      }
    }

    // ----- small blocks

    /** list_for_next: the first pool from k on whose count is large enough. */
    method FindPool(from: MemPool?, ghost k: nat, n: nat) returns (pool: MemPool?, ghost j: nat)
      requires Chained() && k <= |pools| && from == After(pools, k - 1)
      ensures k <= j <= |pools| && pool == After(pools, j - 1)
      ensures forall i {:trigger pools[i]} :: k <= i < j ==> pools[i].nfree_pages < n
      ensures j < |pools| ==> pools[j].nfree_pages >= n
    {
      hide AllSized, Distinct, Links;
      pool, j := from, k;
      while pool != null && pool.nfree_pages < n
        invariant k <= j <= |pools| && pool == After(pools, j - 1)
        invariant forall i {:trigger pools[i]} :: k <= i < j ==> pools[i].nfree_pages < n
        decreases |pools| - j
      {
        NextIs(pools, j);
        pool, j := pool.next, j + 1;
      }
    }

    /** One try: search the pool, and if it has room, note the size and make it the current pool. */
    method Place(pool: MemPool, ghost k: nat, n: nat, ghost size: nat) returns (idx: int, ptr: int)
      requires Valid() && k < |pools| && pool == pools[k] && n > 0
      modifies pool`curr_idx, pool`nfree_pages, pool.bit_vector, pool.head_page, `curr_mem_pool, `at
      ensures k < |old(Model()).pools| && PoolShape(old(Model()).pools[k])
      ensures var p := old(Model()).pools[k]; idx == FindPages(p.bits, p.cur, n)
      ensures idx < 0 ==> Valid() && Model() == old(Model())
      ensures idx >= 0 ==> var a := PlaceIn(old(Model()), k, n, size);
        Valid() && Model() == a.heap && a.block.pool < |a.heap.pools| && ptr == Addr(a.heap, a.block)
    {
      hide Values, Distinct, Links, AllSized, MemPool.Value, MemPool.Sized, PoolShape, Take;
      ghost var h := Model();
      ValuesAt(pools);
      PoolIn(h, k);
      idx := TakeAt(pool, k, n);
      ptr := 0;
      if idx >= 0 {
        ptr := Commit(pool, k, idx, n, h, size);
      }
    }

    /** Notes the size of the pages just taken and makes their pool the current one. */
    method Commit(pool: MemPool, ghost k: nat, idx: nat, n: nat, ghost h: Heap, ghost size: nat) returns (ptr: int)
      requires Chained() && Shape(h) && k < |h.pools| == |pools| && pool == pools[k] && n > 0
      requires PoolShape(h.pools[k]) && idx == FindPages(h.pools[k].bits, h.pools[k].cur, n)
      requires Values(pools) == h.pools[k := Take(h.pools[k], idx, n)] && base == h.base && limit == h.limit &&
        total_size == h.total
      modifies pool.head_page, `curr_mem_pool, `at
      ensures var a := PlaceIn(h, k, n, size);
        Valid() && Model() == a.heap && a.block.pool < |a.heap.pools| && ptr == Addr(a.heap, a.block)
    {
      hide Values, Distinct, Links, MemPool.Value, MemPool.Sized, PoolShape;
      ValuesAt(pools);
      PoolIn(h, k);
      PageAddr(pool, idx);
      ptr := pool.head_page[idx].addr;
      NoteAt(pool, k, idx, n);
      ghost var vs := Values(pools);
      ValuesAt(pools);
      curr_mem_pool, at := pool, k;
      ValuesAre(pools, vs);
      ShapePlaced(h, k, idx, n);
      PlacedIs(h, k, n, size, Values(pools));
    }

    /** One round of the search from pool k on: the next pool that is large enough, and a try there. */
    method TryNext(from: MemPool?, ghost k: nat, n: nat, ghost size: nat)
      returns (pool: MemPool?, ghost j: nat, idx: int, ptr: int)
      requires Valid() && k <= |pools| && from == After(pools, k - 1) && 0 < n <= NUM_PAGES
      modifies `curr_mem_pool, `at, pools, Bits(pools), Pages(pools)
      ensures pools == old(pools) && k <= j <= |pools| && pool == After(pools, j - 1) && |old(Model()).pools| == |pools|
      ensures pool == null ==>
        Valid() && Model() == old(Model()) &&
        SmallFrom(old(Model()), k, n, size) == SmallFrom(old(Model()), |pools|, n, size)
      ensures pool != null && idx < 0 ==>
        Valid() && Model() == old(Model()) &&
        SmallFrom(old(Model()), k, n, size) == SmallFrom(old(Model()), j + 1, n, size)
      ensures pool != null && idx >= 0 ==> Delivered(SmallFrom(old(Model()), k, n, size), ptr)
    {
      hide Values, Distinct, Links, AllSized, MemPool.Value, MemPool.Sized, PoolShape, SmallFrom, PlaceIn, Addr;
      ghost var h := Model();
      pool, j := FindPool(from, k, n);
      CountsOf(pools);
      SkipSmall(h, k, j, n, size);
      idx, ptr := -1, 0;
      if pool != null {
        MemberOf(pools, j);
        SmallAt(h, j, n, size);
        idx, ptr := Place(pool, j, n, size);
      }
    }

    /** The answer a is what the program has now, and ptr is the pointer it returns. */
    ghost predicate Delivered(a: Answer, ptr: int)
      reads this, pools, Bits(pools), Pages(pools)
    {
      a.Got? && Valid() && Model() == a.heap && a.block.pool < |a.heap.pools| && ptr == Addr(a.heap, a.block)
    }

    /** The goto loop over the pools from k on; it ends in a pool that accepts, or at the end of the list. */
    method TryPools(from: MemPool?, ghost k: nat, n: nat, ghost size: nat) returns (placed: bool, ptr: int)
      requires Valid() && k <= |pools| && from == After(pools, k - 1) && 0 < n <= NUM_PAGES
      modifies `curr_mem_pool, `at, pools, Bits(pools), Pages(pools)
      ensures pools == old(pools) && |old(Model()).pools| == |pools|
      ensures placed ==> Delivered(SmallFrom(old(Model()), k, n, size), ptr)
      ensures !placed ==>
        Valid() && Model() == old(Model()) &&
        SmallFrom(old(Model()), k, n, size) == SmallFrom(old(Model()), |pools|, n, size)
    {
      hide Values, Distinct, Links, AllSized, Shape, SmallFrom, Delivered;
      ghost var h, j := Model(), k;
      var pos := from;
      placed, ptr := false, 0;
      while pos != null
        invariant pools == old(pools) && Valid() && Model() == h && j <= |pools| && pos == After(pools, j - 1)
        invariant SmallFrom(h, k, n, size) == SmallFrom(h, j, n, size)
        decreases |pools| - j
      {
        var idx;
        pos, j, idx, ptr := TryNext(pos, j, n, size);
        if pos != null {
          if idx >= 0 {
            placed := true;
            return;
          }
          NextOf(pools, j);
          pos, j := pos.next, j + 1;
        } else {
          j := |pools|;
        }
      }
    }

    /** A new pool at the end of the list keeps the heap valid. */
    method GrowHeap() returns (ok: bool)
      requires Valid() && pools != []
      modifies `total_size, `tail_mem_pool, `pools, `ntotal_mem_pools, tail_mem_pool`next
      ensures ok == Grow(old(Model()), [FreshPool(base + old(total_size))]).Some?
      ensures ok ==> Valid() && pools == old(pools) + [tail_mem_pool] && fresh(tail_mem_pool)
      ensures ok ==> fresh(tail_mem_pool.bit_vector) && fresh(tail_mem_pool.head_page)
      ensures ok ==> Model() == Grow(old(Model()), [FreshPool(base + old(total_size))]).value
    {
      hide Values, Distinct, Links, AllSized, MemPool.Value, MemPool.Sized, FreshPool, PoolShape;
      ghost var h := Model();
      ok := GrowOne();
      if ok {
        GrownShape(h);
      }
    }

    /** The search with growth: what a small request does. */
    method SmallMalloc(from: MemPool?, ghost k: nat, n: nat, ghost size: nat) returns (ok: bool, ptr: int)
      requires Valid() && pools != [] && k <= |pools| && from == After(pools, k - 1) && 0 < n <= NUM_PAGES
      modifies this, pools, Bits(pools), Pages(pools)
      ensures ok == SmallFrom(old(Model()), k, n, size).Got?
      ensures ok ==> Delivered(SmallFrom(old(Model()), k, n, size), ptr)
    {
      hide Values, Distinct, Links, AllSized, Shape, SmallFrom, Delivered, MemPool.Value, MemPool.Sized, FreshPool,
           PoolShape, PlaceIn;
      ghost var h := Model();
      LastIn(pools);
      ok, ptr := TryPools(from, k, n, size);
      if ok {
        DeliveredGot(SmallFrom(h, k, n, size), ptr);
        return;
      }
      ok, ptr := PlaceInNew(n, size);
    }

    /** No pool is left: a new one takes the pages. */
    method PlaceInNew(n: nat, ghost size: nat) returns (ok: bool, ptr: int)
      requires Valid() && pools != [] && 0 < n <= NUM_PAGES
      modifies this, tail_mem_pool`next
      ensures |old(Model()).pools| == |old(pools)| && ok == SmallFrom(old(Model()), |old(pools)|, n, size).Got?
      ensures ok ==> Delivered(SmallFrom(old(Model()), |old(pools)|, n, size), ptr)
    {
      hide Values, Distinct, Links, AllSized, Shape, SmallFrom, Delivered, MemPool.Value, MemPool.Sized, FreshPool,
           PoolShape, PlaceIn;
      ghost var h := Model();
      SmallAtEnd(h, n, size);
      ptr := 0;
      ok := GrowHeap();
      if ok {
        var idx;
        idx, ptr := Place(tail_mem_pool, |h.pools|, n, size);
        DeliveredIs(SmallFrom(h, |h.pools|, n, size), ptr);
      }
    }

    lemma DeliveredGot(a: Answer, ptr: int)
      requires Delivered(a, ptr)
      ensures a.Got?
    {
    }

    lemma DeliveredIs(a: Answer, ptr: int)
      requires a.Got? && Valid() && Model() == a.heap && a.block.pool < |a.heap.pools| && ptr == Addr(a.heap, a.block)
      ensures Delivered(a, ptr)
    {
    }

    // ----- large blocks

    /** The search from the tail. It follows the forward links, so it looks at one pool. */
    method SearchTail(num_mem_pool: nat) returns (found: bool, pool: MemPool?)
      requires Valid() && pools != [] && num_mem_pool >= 2
      ensures Valid() && Model() == old(Model()) && found == Reusable(Model(), num_mem_pool)
      ensures found ==> |pools| >= 2 && pool == pools[|pools| - 2]
    {
      hide Distinct, Shape, MemPool.Value, MemPool.Sized;
      ghost var n := |pools|;
      NextOf(pools, n - 1);
      CountsOf(pools);
      var cnt := 0;
      found, pool := false, tail_mem_pool;
      while pool != null
        invariant cnt == 0 || pool == null
        invariant pool == null || pool == pools[n - 1]
        invariant pool == null ==> !Reusable(Model(), num_mem_pool)
        decreases pool != null
      {
        if pool.nfree_pages == NUM_PAGES && pool.prev != null && pool.prev.nfree_pages == NUM_PAGES {
          cnt := cnt + 1;
        } else {
          cnt := 0;
        }
        if cnt == num_mem_pool - 1 {
          found, pool := true, pool.prev;
          break;
        }
        pool := pool.next;
      }
    }

    /** Makes the k'th pool the current one. */
    method SetCurrent(pool: MemPool, ghost k: nat)
      requires Chained() && k < |pools| && pool == pools[k] && Shape(Heap(base, limit, Values(pools), k, total_size))
      modifies `curr_mem_pool, `at
      ensures Valid() && Model() == old(Heap(base, limit, Values(pools), k, total_size))
    {
      hide Values, Distinct, Links, MemPool.Value, MemPool.Sized, Shape;
      ghost var vs := Values(pools);
      ValuesAt(pools);
      curr_mem_pool, at := pool, k;
      ValuesAre(pools, vs);
    }

    /** The marking loop of the reuse branch, for its two pools: both flags are set. */
    method MarkBoth(pool: MemPool, ghost k: nat)
      requires Chained() && k + 2 == |pools| && pool == pools[k]
      modifies pools
      ensures Chained() && curr_mem_pool == old(curr_mem_pool)
      ensures Values(pools) == old(Values(pools))[k := Retaken(old(Values(pools))[k])]
        [k + 1 := Retaken(old(Values(pools))[k + 1])]
    {
      hide Values, Distinct, Links, MemPool.Value, MemPool.Sized;
      MemberOf(pools, k);
      MemberOf(pools, k + 1);
      NextOf(pools, k);
      ValuesAt(pools);
      var second := pool.next;
      FlagAt(pool, k, true, 0);
      ValuesAt(pools);
      FlagAt(second, k + 1, true, 0);
    }

    /** The reuse branch. */
    method Reuse(pool: MemPool, ghost size: nat) returns (ptr: int)
      requires Valid() && Reusable(Model(), 2) && |pools| >= 2 && pool == pools[|pools| - 2]
      modifies pools, `curr_mem_pool, `at
      ensures Delivered(LargeAlloc(old(Model()), 2, size), ptr)
    {
      hide Values, Distinct, Links, MemPool.Value, MemPool.Sized, PoolShape, Delivered;
      ghost var h, k := Model(), |pools| - 2;
      ValuesAt(pools);
      PageAddr(pool, 0);
      ptr := pool.head_page[0].addr;
      ShapeReused(h, k);
      MarkBoth(pool, k);
      SetCurrent(pool, k);
      ReusedAddr(h, size);
      DeliveredIs(LargeAlloc(h, 2, size), ptr);
    }

    /** One iteration of `_large_mem_pool_allocation`: a pool without free pages, flagged, at the end of the list. */
    method AddLargePool(start: int)
      requires Chained() && pools != []
      modifies `tail_mem_pool, `pools, `ntotal_mem_pools, tail_mem_pool`next
      ensures Chained() && pools == old(pools) + [tail_mem_pool] && fresh(tail_mem_pool)
      ensures fresh(tail_mem_pool.bit_vector) && fresh(tail_mem_pool.head_page)
      ensures Values(pools) == old(Values(pools)) + [RawPool(start)]
    {
      hide Values, Distinct, Links, MemPool.Value, MemPool.Sized, FreshPool;
      ghost var vs := Values(pools);
      ValuesAt(pools);
      var pool := new MemPool(start, 0, true);
      ValuesAre(pools, vs);
      AddTail(pool);
    }

    /** The loop of `_large_mem_pool_allocation`. */
    method AddLargePools(start: int, num_mem_pool: nat) returns (ret_obj: MemPool?)
      requires Chained() && pools != []
      modifies `tail_mem_pool, `pools, `ntotal_mem_pools, tail_mem_pool`next
      ensures Chained() && |pools| == |old(pools)| + num_mem_pool
      ensures Values(pools) == old(Values(pools)) + RawPools(start, num_mem_pool)
      ensures forall x {:trigger pools[x]} :: |old(pools)| <= x < |pools| ==>
        fresh(pools[x]) && fresh(pools[x].head_page)
      ensures num_mem_pool > 0 ==> ret_obj == pools[|old(pools)|]
    {
      hide Values, Distinct, Links, AllSized, MemPool.Value, MemPool.Sized, RawPool;
      ghost var n, vs := |pools|, Values(pools);
      var i := 0;
      ret_obj := null;
      assert vs == vs + RawPools(start, 0);
      while i < num_mem_pool
        invariant i <= num_mem_pool && Chained() && |pools| == n + i && Values(pools) == vs + RawPools(start, i)
        invariant if i == 0 then tail_mem_pool == old(tail_mem_pool) else fresh(tail_mem_pool)
        invariant forall x {:trigger pools[x]} :: n <= x < |pools| ==> fresh(pools[x]) && fresh(pools[x].head_page)
        invariant i > 0 ==> ret_obj == pools[n]
      {
        AddLargePool(start + i * HUGE_PAGE_SIZE);
        if i == 0 {
          ret_obj := tail_mem_pool;
        }
        RawSnoc(start, i, vs);
        i := i + 1;
      }
    }

    /** `_large_mem_pool_allocation` */
    method LargePoolAllocation(num_mem_pool: nat) returns (first: MemPool?, ok: bool)
      requires Chained() && pools != [] && num_mem_pool >= 2
      modifies `total_size, `tail_mem_pool, `pools, `ntotal_mem_pools, tail_mem_pool`next
      ensures total_size == old(total_size) + num_mem_pool * HUGE_PAGE_SIZE && ok == (total_size <= limit)
      ensures ok ==> Chained() && |pools| == |old(pools)| + num_mem_pool && first == pools[|old(pools)|]
      ensures ok ==> Values(pools) == old(Values(pools)) + LargePools(old(Model()), num_mem_pool)
    {
      hide Values, Distinct, Links, MemPool.Value, MemPool.Sized, LargePools, RawPools;
      ghost var h, n, vs := Model(), |pools|, Values(pools);
      ValuesAt(pools);
      var start;
      start, ok := MmapDrv(HUGE_PAGE_SIZE * num_mem_pool);
      first := null;
      if ok {
        ValuesAre(pools, vs);
        first := AddLargePools(start, num_mem_pool);
        FinishLarge(first, n, num_mem_pool, h);
      }
    }

    /** Clears the flag of the last pool and notes a size at the first page of the first. */
    method FinishLarge(first: MemPool, ghost n: nat, ghost num: nat, ghost h: Heap)
      requires Chained() && |pools| == n + num && num >= 2 && |h.pools| == n && first == pools[n]
      requires Values(pools) == h.pools + RawPools(h.base + h.total, num)
      modifies first.head_page, tail_mem_pool
      ensures Chained() && Values(pools) == h.pools + LargePools(h, num)
    {
      hide Values, Distinct, Links, MemPool.Value, MemPool.Sized, LargePools, RawPools, LargePool;
      LargeFinished(h, num);
      ValuesAt(pools);
      FlagAt(tail_mem_pool, n + num - 1, false, 0);
      ValuesAt(pools);
      NoteAt(first, n, 0, NUM_PAGES);
    }

    /** A large request: reuse of the last two pools, or new ones. */
    method LargeMalloc(num_mem_pool: nat, ghost size: nat) returns (ok: bool, ptr: int)
      requires Valid() && pools != [] && num_mem_pool >= 2
      modifies this, pools
      ensures ok == LargeAlloc(old(Model()), num_mem_pool, size).Got?
      ensures ok ==> Delivered(LargeAlloc(old(Model()), num_mem_pool, size), ptr)
    {
      hide Values, Distinct, Links, Shape, Delivered, LargeAlloc, MemPool.Value, MemPool.Sized;
      ghost var h := Model();
      var found, pool := SearchTail(num_mem_pool);
      if found {
        ReusedTwo(h, num_mem_pool);
        ok := true;
        ptr := Reuse(pool, size);
        DeliveredGot(LargeAlloc(h, 2, size), ptr);
      } else {
        LastIn(pools);
        ok, ptr := FreshLarge(num_mem_pool, size);
      }
    }

    method FreshLarge(num_mem_pool: nat, ghost size: nat) returns (ok: bool, ptr: int)
      requires Valid() && pools != [] && num_mem_pool >= 2 && !Reusable(Model(), num_mem_pool)
      modifies this, tail_mem_pool`next
      ensures ok == LargeAlloc(old(Model()), num_mem_pool, size).Got?
      ensures ok ==> Delivered(LargeAlloc(old(Model()), num_mem_pool, size), ptr)
    {
      hide Values, Distinct, Links, Shape, Delivered, MemPool.Value, MemPool.Sized, LargePools;
      ghost var h := Model();
      var pool;
      pool, ok := LargePoolAllocation(num_mem_pool);
      ptr := 0;
      if ok {
        FreshLargeShape(h, num_mem_pool, size);
        ValuesAt(pools);
        CountsOf(pools);
        PageAddr(pool, 0);
        ptr := pool.head_page[0].addr;
        SetCurrent(pool, |h.pools|);
        DeliveredIs(LargeAlloc(h, num_mem_pool, size), ptr);
      }
    }

    // ----- the two entry points

    /** The very first pool: head, tail and current at once. */
    method InitPools() returns (ok: bool)
      requires Valid() && curr_mem_pool == null
      modifies this
      ensures ok == Init(old(Model())).Some?
      ensures ok ==> Valid() && Model() == Init(old(Model())).value && fresh(pools[0]) && |pools| == 1
      ensures ok ==> fresh(pools[0].bit_vector) && fresh(pools[0].head_page)
    {
      hide MemPool.Value, MemPool.Sized, FreshPool, PoolShape;
      ghost var h := Model();
      var new_mem_pool;
      new_mem_pool, ok := NewPool(NUM_PAGES, false);
      if ok {
        curr_mem_pool, head_mem_pool, tail_mem_pool := new_mem_pool, new_mem_pool, new_mem_pool;
        ntotal_mem_pools := ntotal_mem_pools + 1;
        pools, at := [new_mem_pool], 0;
        FreshIs(h.base + h.total);
        FreshStart(h.base + h.total);
        ValuesAre(pools, [FreshPool(h.base + h.total)]);
      }
    }

    /** `pim_malloc` on a heap that has pools. */
    method Serve(size: nat) returns (ok: bool, ptr: int)
      requires Valid() && pools != []
      modifies this, pools, Bits(pools), Pages(pools)
      ensures old(Model()).pools != [] && ok == Request(old(Model()), size).Got?
      ensures ok ==> Delivered(Request(old(Model()), size), ptr)
    {
      hide Values, Distinct, Links, Delivered, LargeAlloc, SmallFrom, MemPool.Value, MemPool.Sized, PoolShape;
      CountsOf(pools);
      var nalloc_pages := if size / PAGE_SIZE != 0 then size / PAGE_SIZE else 1;
      nalloc_pages := if size % PAGE_SIZE != 0 then nalloc_pages + 1 else nalloc_pages;
      if size > HUGE_PAGE_SIZE {
        var tmp := size / HUGE_PAGE_SIZE;
        var num_mem_pool := if size % HUGE_PAGE_SIZE != 0 then tmp + 1 else tmp;
        ok, ptr := LargeMalloc(num_mem_pool, size);
      } else if nalloc_pages > curr_mem_pool.nfree_pages {
        ok, ptr := SmallMalloc(head_mem_pool, 0, nalloc_pages, size);
      } else {
        ok, ptr := SmallMalloc(curr_mem_pool, at, nalloc_pages, size);
      }
    }

    /** `pim_malloc`; it fails where the program runs out of memory and ends. */
    method PimMalloc(size: nat) returns (ok: bool, ptr: int)
      requires Valid() && size <= MAX_REQUEST
      modifies this, pools, Bits(pools), Pages(pools)
      ensures Shape(old(Model())) && ok == Malloc(old(Model()), size).Got?
      ensures ok ==> Delivered(Malloc(old(Model()), size), ptr)
    {
      hide Values, Distinct, Links, AllSized, Delivered, Request, Init, MemPool.Value, MemPool.Sized, PoolShape;
      ghost var h := Model();
      ok, ptr := true, 0;
      if curr_mem_pool == null {
        ok := InitPools();
      } else {
        Initialised(h);
      }
      if ok {
        ok, ptr := Serve(size);
      }
    }

    /** The range test: the first pool whose 2 MB hold the address. */
    method FindAddr(addr: int) returns (pool: MemPool?, ghost k: nat)
      requires Valid()
      ensures Valid() && Model() == old(Model())
      ensures k == PoolOf(Model(), addr, 0) && |Model().pools| == |pools| && pool == After(pools, k - 1)
    {
      hide AllSized, Distinct, Links, Shape, Values, PoolOf, MemPool.Value, MemPool.Sized;
      ghost var h := Model();
      pool, k := head_mem_pool, 0;
      PoolOfStep(h, addr, 0);
      while pool != null && !(pool.start_va <= addr && pool.start_va + HUGE_PAGE_SIZE - 1 >= addr)
        invariant Valid() && Model() == h
        invariant k <= |pools| && pool == After(pools, k - 1) && PoolOf(h, addr, 0) == PoolOf(h, addr, k)
        decreases |pools| - k
      {
        CountsOf(pools);
        PoolOfStep(h, addr, k);
        NextOf(pools, k);
        pool, k := pool.next, k + 1;
      }
      CountsOf(pools);
      PoolOfStep(h, addr, k);
    }

    /** What the walk does to one pool. */
    method ReleaseAt(pool: MemPool, ghost k: nat)
      requires Valid() && k < |pools| && pool == pools[k]
      modifies pool`large_mem_pool, pool`nfree_pages
      ensures |old(Model()).pools| == |pools|
      ensures Valid() && Model() == old(Model()).(pools := old(Model()).pools[k := Released(old(Model()).pools[k])])
    {
      hide Values, Distinct, Links, Shape, MemPool.Value, MemPool.Sized;
      ghost var h := Model();
      ValuesAt(pools);
      ShapeOfReleased(h, k);
      FlagAt(pool, k, false, NUM_PAGES);
    }

    /** The walk that frees a large block: until a clear flag or the end of the list. */
    method FreeWalk(from: MemPool, ghost k: nat)
      requires Valid() && k < |pools| && from == pools[k]
      modifies pools
      ensures Valid() && Model() == old(Model()).(pools := NeedFree(old(Model()).pools, k))
    {
      hide Values, Distinct, Links, AllSized, Shape, NeedFree, MemPool.Value, MemPool.Sized;
      ghost var h, j := Model(), k;
      var pos: MemPool? := from;
      while pos != null
        invariant pools == old(pools) && j <= |pools| && pos == After(pools, j - 1)
        invariant Valid() && Model() == h.(pools := Values(pools)) && NeedFree(Values(pools), j) == NeedFree(h.pools, k)
        decreases |pools| - j
      {
        CountsOf(pools);
        NeedFreeStep(Values(pools), j);
        var last := !pos.large_mem_pool;
        ReleaseAt(pos, j);
        if last {
          return;
        }
        NextOf(pools, j);
        pos, j := pos.next, j + 1;
      }
      NeedFreeEnd(Values(pools), j);
    }

    /** `pim_free`; it fails where the program ends with an assertion. */
    method PimFree(addr: int) returns (ok: bool)
      requires Valid()
      modifies pools, Bits(pools)
      ensures Shape(old(Model())) && ok == Free(old(Model()), addr).Some?
      ensures ok ==> Valid() && Model() == Free(old(Model()), addr).value
    {
      hide Values, Distinct, Links, AllSized, NeedFree, MemPool.Value, MemPool.Sized, PoolShape;
      ghost var h := Model();
      var pool, k := FindAddr(addr);
      if pool == null {
        return false;
      }
      CountsOf(pools);
      ok := true;
      if pool.large_mem_pool {
        FreeWalk(pool, k);
      } else {
        ok := FreeSmall(pool, k, addr);
      }
    }

    method FreeSmall(pool: MemPool, ghost k: nat, addr: int) returns (ok: bool)
      requires Valid() && k < |pools| && pool == pools[k] && !pool.large_mem_pool
      requires k == PoolOf(Model(), addr, 0)
      modifies pools, Bits(pools)
      ensures Shape(old(Model())) && ok == Free(old(Model()), addr).Some?
      ensures ok ==> Valid() && Model() == Free(old(Model()), addr).value
    {
      hide Values, Distinct, Links, AllSized, MemPool.Value, MemPool.Sized, ClearBits;
      ghost var h := Model();
      CountsOf(pools);
      ValuesAt(pools);
      MemberOf(pools, k);
      PoolIn(h, k);
      var page_idx := (addr - pool.start_va) / PAGE_SIZE;
      PageAddr(pool, page_idx);
      SizeAt(pool, page_idx);
      var free_size := pool.head_page[page_idx].alloc_size;
      if free_size == 0 {
        return false;
      }
      ShapeCleared(h, k, page_idx, free_size);
      ClearAt(pool, k, page_idx, free_size);
      ok := true;
    }
  }

  lemma Initialised(h: Heap)
    requires Shape(h) && h.curr != -1
    ensures Init(h) == Some(h)
  {
  }

  lemma NeedFreeStep(vs: seq<Pool>, j: nat)
    requires j < |vs|
    ensures var next := vs[j := Released(vs[j])];
      NeedFree(vs, j) == if !vs[j].large then next else NeedFree(next, j + 1)
  {
  }

  lemma PoolOfStep(h: Heap, addr: int, k: nat)
    requires k <= |h.pools|
    ensures PoolOf(h, addr, k) ==
      if k == |h.pools| then k
      else if h.pools[k].start <= addr <= h.pools[k].start + HUGE_PAGE_SIZE - 1 then k else PoolOf(h, addr, k + 1)
  {
  }

  lemma NeedFreeEnd(vs: seq<Pool>, j: nat)
    requires j >= |vs|
    ensures NeedFree(vs, j) == vs
  {
  }

  lemma ShapeOfReleased(h: Heap, k: nat)
    requires Shape(h) && k < |h.pools|
    ensures Shape(h.(pools := h.pools[k := Released(h.pools[k])]))
  {
  }

  lemma SizeAt(pool: MemPool, i: nat)
    requires pool.Sized() && i < NUM_PAGES
    ensures |pool.Value().sizes| == NUM_PAGES && pool.Value().sizes[i] == pool.head_page[i].alloc_size
  {
  }

  lemma ReusedTwo(h: Heap, num: nat)
    requires Reusable(h, num)
    ensures num == 2
  {
  }

  lemma FreshLargeShape(h: Heap, num: nat, size: nat)
    requires Shape(h) && h.pools != [] && num >= 2 && !Reusable(h, num) && h.total + num * HUGE_PAGE_SIZE <= h.limit
    ensures var a := LargeAlloc(h, num, size);
      && a == Got(Heap(h.base, h.limit, h.pools + LargePools(h, num), |h.pools|, h.total + num * HUGE_PAGE_SIZE),
         Large(|h.pools|, num, size))
      && Shape(a.heap) && a.block.pool < |a.heap.pools| && Addr(a.heap, a.block) == a.heap.pools[|h.pools|].start
  {
    hide LargePools, PoolShape;
    forall i | 0 <= i < num
      ensures PoolShape(LargePools(h, num)[i]) && LargePools(h, num)[i].start == h.base + h.total + i * HUGE_PAGE_SIZE
    {
      LargePoolAt(h, num, i);
    }
    ShapeGrown(h, LargePools(h, num), |h.pools|);
  }

  /** A pool as the allocation loop makes it, before the last flag is cleared. */
  function RawPool(start: int): Pool {
    FreshPool(start).(nfree := 0, large := true)
  }

  function RawPools(start: int, num: nat): (s: seq<Pool>)
    ensures |s| == num
  {
    seq(num, i => RawPool(start + i * HUGE_PAGE_SIZE))
  }

  lemma RawSnoc(start: int, i: nat, vs: seq<Pool>)
    ensures vs + RawPools(start, i) + [RawPool(start + i * HUGE_PAGE_SIZE)] == vs + RawPools(start, i + 1)
  {
    hide RawPool;
  }

  lemma LargeFinished(h: Heap, num: nat)
    requires num >= 2
    ensures var raw, n := RawPools(h.base + h.total, num), |h.pools|;
      var last := raw[num - 1].(large := false, nfree := 0);
      && |raw[0].sizes| == NUM_PAGES
      && (h.pools + raw)[n + num - 1 := last][n := raw[0].(sizes := raw[0].sizes[0 := NUM_PAGES])] ==
         h.pools + LargePools(h, num)
  {
    hide FreshPool;
    var raw, n := RawPools(h.base + h.total, num), |h.pools|;
    var last := raw[num - 1].(large := false, nfree := 0);
    FreshSizes(h.base + h.total);
    assert raw[num - 1 := last][0 := raw[0].(sizes := raw[0].sizes[0 := NUM_PAGES])] == LargePools(h, num) by {
      forall i | 0 <= i < num
        ensures raw[num - 1 := last][0 := raw[0].(sizes := raw[0].sizes[0 := NUM_PAGES])][i] == LargePools(h, num)[i]
      {
        FreshSizes(h.base + h.total + i * HUGE_PAGE_SIZE);
      }
    }
    assert (h.pools + raw)[n + num - 1 := last] == h.pools + raw[num - 1 := last];
  }

  lemma FreshSizes(start: int)
    ensures FreshPool(start).sizes == NoSizes() && FreshPool(start).nfree == NUM_PAGES && !FreshPool(start).large
  {
  }

  lemma ReusedAddr(h: Heap, size: nat)
    requires Shape(h) && Reusable(h, 2)
    ensures var k, a := |h.pools| - 2, LargeAlloc(h, 2, size);
      && a.Got? && a.block.pool < |a.heap.pools| && Addr(a.heap, a.block) == h.pools[k].start
      && a.heap == h.(pools := h.pools[k := Retaken(h.pools[k])][k + 1 := Retaken(h.pools[k + 1])], curr := k)
  {
  }

  lemma LastIn(ps: seq<MemPool>)
    requires ps != []
    ensures ps[|ps| - 1] in ps
  {
  }

  lemma GrownShape(h: Heap)
    requires Shape(h) && h.pools != [] && h.total + HUGE_PAGE_SIZE <= h.limit
    ensures var g := Grow(h, [FreshPool(h.base + h.total)]);
      g.Some? && Shape(g.value) && |g.value.pools| == |h.pools| + 1 &&
        g.value.pools[|h.pools|] == FreshPool(h.base + h.total)
  {
    hide PoolShape, FreshPool;
    FreshStart(h.base + h.total);
    ShapeGrown(h, [FreshPool(h.base + h.total)], h.curr);
  }

  lemma SmallAtEnd(h: Heap, n: nat, size: nat)
    requires Shape(h) && h.pools != [] && 0 < n <= NUM_PAGES
    ensures var g, a := Grow(h, [FreshPool(h.base + h.total)]), SmallFrom(h, |h.pools|, n, size);
      if g.None? then a.OutOfMemory?
      else
        && |g.value.pools| == |h.pools| + 1 && PoolShape(g.value.pools[|h.pools|])
        && FindPages(g.value.pools[|h.pools|].bits, g.value.pools[|h.pools|].cur, n) >= 0
        && a == PlaceIn(g.value, |h.pools|, n, size)
  {
    FreshFits(h.base + h.total, n);
  }

  lemma MemberOf(ps: seq<MemPool>, i: nat)
    requires i < |ps|
    ensures ps[i] in ps && ps[i].bit_vector in Bits(ps) && ps[i].head_page in Pages(ps)
  {
  }

  lemma NextOf(ps: seq<MemPool>, i: nat)
    requires Links(ps) && i < |ps|
    ensures ps[i].next == After(ps, i) && ps[i].prev == Before(ps, i)
  {
  }

  /** The counts, flags and start addresses the program reads are those of the values. */
  lemma CountsOf(ps: seq<MemPool>)
    requires AllSized(ps)
    ensures forall i {:trigger ps[i]} {:trigger Values(ps)[i]} :: 0 <= i < |ps| ==>
      && Values(ps)[i].nfree == ps[i].nfree_pages && Values(ps)[i].large == ps[i].large_mem_pool
      && Values(ps)[i].start == ps[i].start_va
  {
  }

  lemma {:induction false} SkipSmall(h: Heap, k: nat, j: nat, n: nat, size: nat)
    requires Shape(h) && 0 < n <= NUM_PAGES && k <= j <= |h.pools|
    requires forall i {:trigger h.pools[i]} :: k <= i < j ==> h.pools[i].nfree < n
    ensures SmallFrom(h, k, n, size) == SmallFrom(h, j, n, size)
    decreases j - k
  {
    hide PoolShape;
    if k < j {
      PoolIn(h, k);
      SkipSmall(h, k + 1, j, n, size);
    }
  }

  lemma SmallAt(h: Heap, k: nat, n: nat, size: nat)
    requires Shape(h) && 0 < n <= NUM_PAGES && k < |h.pools| && h.pools[k].nfree >= n
    ensures PoolShape(h.pools[k])
    ensures SmallFrom(h, k, n, size) ==
      if FindPages(h.pools[k].bits, h.pools[k].cur, n) >= 0 then PlaceIn(h, k, n, size)
      else SmallFrom(h, k + 1, n, size)
  {
  }

  lemma FreshIs(start: int)
    ensures FreshPool(start) == FreshPool(start).(nfree := NUM_PAGES, large := false)
  {
  }

  lemma PoolIn(h: Heap, k: nat)
    requires Shape(h) && k < |h.pools|
    ensures PoolShape(h.pools[k]) && |h.pools[k].bits| == NUM_PAGES && h.pools[k].cur <= NUM_PAGES
    ensures h.pools[k].start == h.base + k * HUGE_PAGE_SIZE
  {
  }

  lemma PlacedIs(h: Heap, k: nat, n: nat, size: nat, vs: seq<Pool>)
    requires Shape(h) && k < |h.pools| && n > 0 && FindPages(h.pools[k].bits, h.pools[k].cur, n) >= 0
    requires var p := h.pools[k];
      vs == h.pools[k := Placed(p, FindPages(p.bits, p.cur, n), n)]
    ensures var idx := FindPages(h.pools[k].bits, h.pools[k].cur, n);
      && PlaceIn(h, k, n, size) == Got(h.(pools := vs, curr := k), Small(k, idx, n, size))
      && Addr(h.(pools := vs, curr := k), Small(k, idx, n, size)) == h.pools[k].start + idx * PAGE_SIZE
  {
  }

  lemma PageAddr(pool: MemPool, idx: nat)
    requires pool.Sized() && idx < NUM_PAGES
    ensures pool.head_page.Length == NUM_PAGES && pool.head_page[idx].addr == pool.start_va + idx * PAGE_SIZE
    ensures pool.Value().start == pool.start_va
  {
  }

  lemma ValueLengths(pool: MemPool)
    requires pool.Sized()
    ensures |pool.Value().bits| == NUM_PAGES && |pool.Value().sizes| == NUM_PAGES
  {
  }

  lemma OthersApart(ps: seq<MemPool>, k: nat)
    requires Distinct(ps) && k < |ps|
    ensures forall i {:trigger ps[i]} :: 0 <= i < |ps| && i != k ==>
      ps[i] != ps[k] && ps[i].bit_vector != ps[k].bit_vector && ps[i].head_page != ps[k].head_page
  {
  }

  lemma ValuesAt(ps: seq<MemPool>)
    requires AllSized(ps)
    ensures forall i {:trigger ps[i]} {:trigger Values(ps)[i]} ::
      0 <= i < |ps| ==> ps[i].Sized() && Values(ps)[i] == ps[i].Value()
  {
  }

  lemma ValuesAre(ps: seq<MemPool>, vs: seq<Pool>)
    requires |vs| == |ps|
    requires forall i {:trigger ps[i]} :: 0 <= i < |ps| ==> ps[i].Sized() && ps[i].Value() == vs[i]
    ensures AllSized(ps) && Values(ps) == vs
  {
    hide MemPool.Value, MemPool.Sized;
  }

  lemma DistinctSnoc(ps: seq<MemPool>, pool: MemPool)
    requires Distinct(ps) && Separate(ps, pool)
    ensures Distinct(ps + [pool])
  {
  }

  /** A pool that shares nothing with the listed ones. */
  ghost predicate Separate(ps: seq<MemPool>, pool: MemPool) {
    forall i {:trigger ps[i]} :: 0 <= i < |ps| ==>
      ps[i] != pool && ps[i].bit_vector != pool.bit_vector && ps[i].head_page != pool.head_page
  }
}
