/** What `pim_malloc` promises: the invariant with the new block, and where the block is put. */
module PoolMalloc {
  import opened PoolBits
  import opened PoolHeap
  import opened PoolInv

  /** A successful answer: a new block of the size asked for, apart from all blocks in use. */
  ghost predicate GoodAnswer(a: Answer, live: set<Block>, size: nat) {
    a.Got? ==> a.block !in live && a.block.size == size && Inv(a.heap, live + {a.block})
  }

  lemma PlaceGood(h: Heap, live: set<Block>, k: nat, n: nat, size: nat)
    requires Inv(h, live) && k < |h.pools| && 0 < n && size <= n * PAGE_SIZE
    requires PoolShape(h.pools[k]) && Accepts(h.pools[k], n)
    ensures GoodAnswer(PlaceIn(h, k, n, size), live, size)
  {
    hide Inv, Apart, Fits;
    NotInLarge(h, live, k);
    var b := PlaceIn(h, k, n, size).block;
    PlaceKeepsInv(h, live, b);
    NewBlock(h, live, b);
  }

  lemma NewBlock(h: Heap, live: set<Block>, b: Block)
    requires Inv(h, live) && b.Small? && b.pool < |h.pools| && !InLarge(live, b.pool)
    requires b.n > 0 && AllAt(h.pools[b.pool].bits, b.page, b.n, '0')
    ensures b !in live
  {
    hide Inv;
    if b in live {
      FreeRunApart(h, live, b.pool, b.page, b.n, b.size, b);
      assert false;
    }
  }

  /** A fresh pool, the current one kept: the state the search goes on from. */
  lemma GrownAccepts(h: Heap, live: set<Block>, n: nat)
    requires Inv(h, live) && h.pools != [] && h.total + HUGE_PAGE_SIZE <= h.limit && 0 < n <= NUM_PAGES
    ensures var g := Grow(h, [FreshPool(h.base + h.total)]);
      && g.Some? && Inv(g.value, live) && |g.value.pools| == |h.pools| + 1
      && PoolShape(g.value.pools[|h.pools|]) && Accepts(g.value.pools[|h.pools|], n)
  {
    hide Records, Fits, Apart, Accepts;
    assert 0 <= h.curr < |h.pools|;
    FreshKeepsInv(h, live, h.curr);
    FreshFits(h.base + h.total, n);
    FreshAccepts(h.base + h.total, n);
  }

  lemma FreshAccepts(start: int, n: nat)
    requires 0 < n <= NUM_PAGES
    ensures PoolShape(FreshPool(start)) && Accepts(FreshPool(start), n)
  {
    FreshFits(start, n);
  }

  lemma {:induction false} SmallFromGood(h: Heap, live: set<Block>, k: nat, n: nat, size: nat)
    requires Inv(h, live) && h.pools != [] && 0 < n <= NUM_PAGES && size <= n * PAGE_SIZE
    ensures GoodAnswer(SmallFrom(h, k, n, size), live, size)
    decreases |h.pools| - k
  {
    hide GoodAnswer, PlaceIn, Accepts, AllFit, AllRecord, AllApart;
    if k >= |h.pools| {
      if h.total + HUGE_PAGE_SIZE <= h.limit {
        GrownAccepts(h, live, n);
        PlaceGood(Grow(h, [FreshPool(h.base + h.total)]).value, live, |h.pools|, n, size);
      } else {
        assert GoodAnswer(OutOfMemory, live, size) by { NoAnswer(live, size); }
      }
    } else if Accepts(h.pools[k], n) {
      PlaceGood(h, live, k, n, size);
    } else {
      SmallFromGood(h, live, k + 1, n, size);
    }
  }

  lemma NoAnswer(live: set<Block>, size: nat)
    ensures GoodAnswer(OutOfMemory, live, size)
  {
  }

  lemma LargeGood(h: Heap, live: set<Block>, num: nat, size: nat)
    requires Inv(h, live) && num >= 2 && size <= num * HUGE_PAGE_SIZE
    ensures GoodAnswer(LargeAlloc(h, num, size), live, size)
  {
    hide Inv;
    if Reusable(h, num) {
      ReuseKeepsInv(h, live, size);
      ReusedNew(h, live, size);
    } else if h.total + num * HUGE_PAGE_SIZE <= h.limit {
      LargeFreshKeepsInv(h, live, num, size);
      FreshNew(h, live, num, size);
    }
  }

  lemma ReusedNew(h: Heap, live: set<Block>, size: nat)
    requires Inv(h, live) && Reusable(h, 2)
    ensures Large(|h.pools| - 2, 2, size) !in live
  {
    hide Inv;
    WhollyFree(h, live, |h.pools| - 2);
  }

  lemma FreshNew(h: Heap, live: set<Block>, num: nat, size: nat)
    requires Inv(h, live) && num > 0
    ensures Large(|h.pools|, num, size) !in live
  {
    hide Inv;
    BeyondEnd(h, live, |h.pools|);
  }

  lemma InitKeepsInv(h: Heap, live: set<Block>)
    requires Inv(h, live)
    ensures Init(h).Some? ==> Inv(Init(h).value, live) && Init(h).value.pools != []
  {
    hide AllFit, AllRecord, AllApart, PoolShape, FreshPool;
    if h.curr == -1 && h.total + HUGE_PAGE_SIZE <= h.limit {
      FreshKeepsInv(h, live, 0);
    }
  }

  /** `pim_malloc` keeps the invariant, for every state and every size. */
  lemma MallocKeepsInv(h: Heap, live: set<Block>, size: nat)
    requires Inv(h, live)
    ensures GoodAnswer(Malloc(h, size), live, size)
  {
    hide AllFit, AllRecord, AllApart, GoodAnswer, SmallFrom, LargeAlloc, PoolShape, Init;
    InitKeepsInv(h, live);
    NoAnswer(live, size);
    match Init(h)
    case None =>
    case Some(g) =>
      if size > HUGE_PAGE_SIZE {
        LargeGood(g, live, PoolsFor(size), size);
      } else {
        SmallFromGood(g, live, if PagesFor(size) > g.pools[g.curr].nfree then 0 else g.curr, PagesFor(size), size);
      }
  }

  // ----- where a small block goes

  /** Every pool from k up to m refuses n pages. */
  ghost predicate Refused(h: Heap, k: nat, m: nat, n: nat)
    requires Shape(h) && n > 0
  {
    forall i {:trigger h.pools[i]} :: k <= i < m && i < |h.pools| ==> !Accepts(h.pools[i], n)
  }

  /**
   The search ends for every state: in the first pool from k on that accepts; if all refuse, in one appended
   pool, at its first page; without memory only if all refuse and the window is used up.
   */
  lemma {:induction false} SmallPlacement(h: Heap, k: nat, n: nat, size: nat)
    requires Shape(h) && 0 < n <= NUM_PAGES && k <= |h.pools|
    ensures var a := SmallFrom(h, k, n, size);
      if a.OutOfMemory? then Refused(h, k, |h.pools|, n) && h.total + HUGE_PAGE_SIZE > h.limit
      else
        && a.block.Small? && a.block.n == n && a.block.size == size
        && k <= a.block.pool && Refused(h, k, a.block.pool, n)
        && (if a.block.pool < |h.pools| then
              && Accepts(h.pools[a.block.pool], n) && |a.heap.pools| == |h.pools| && a.heap.total == h.total
              && a.block.page == FindPages(h.pools[a.block.pool].bits, h.pools[a.block.pool].cur, n)
            else
              && a.block.pool == |h.pools| && a.block.page == 0 && |a.heap.pools| == |h.pools| + 1
              && a.heap.total == h.total + HUGE_PAGE_SIZE)
    decreases |h.pools| - k
  {
    hide Accepts;
    if k >= |h.pools| {
      FreshFits(h.base + h.total, n);
    } else if !Accepts(h.pools[k], n) {
      SmallPlacement(h, k + 1, n, size);
    }
  }
}
