/** What `pim_malloc` leaves alone, that freeing at once undoes it, and which large blocks can lose their end mark. */
module PoolRoundTrip {
  import opened PoolBits
  import opened PoolHeap
  import opened PoolInv
  import opened PoolMalloc
  import opened PoolFree
  import opened PoolRuns

  /** The block has pages in pool k. */
  predicate Touches(b: Block, k: nat) {
    if b.Small? then k == b.pool else b.pool <= k < b.pool + b.num
  }

  /** Pools outside the new block are as they were. */
  ghost predicate Frame(h: Heap, a: Answer) {
    a.Got? ==>
      && |h.pools| <= |a.heap.pools|
      && forall k: nat {:trigger h.pools[k]} :: k < |h.pools| && !Touches(a.block, k) ==> a.heap.pools[k] == h.pools[k]
  }

  lemma {:induction false} SmallFrame(h: Heap, k: nat, n: nat, size: nat)
    requires Shape(h) && 0 < n <= NUM_PAGES
    ensures Frame(h, SmallFrom(h, k, n, size))
    decreases |h.pools| - k
  {
    hide Accepts, FreshPool;
    if k < |h.pools| && !Accepts(h.pools[k], n) {
      SmallFrame(h, k + 1, n, size);
    }
  }

  lemma LargeFrame(h: Heap, num: nat, size: nat)
    ensures Frame(h, LargeAlloc(h, num, size))
  {
    hide LargePools;
  }

  lemma MallocFrame(h: Heap, size: nat)
    requires Shape(h)
    ensures Frame(h, Malloc(h, size))
  {
    hide SmallFrom, LargeAlloc, FreshPool, PoolShape;
    InitShape(h);
    if Init(h).Some? {
      var g := Init(h).value;
      if size > HUGE_PAGE_SIZE {
        LargeFrame(g, PoolsFor(size), size);
      } else {
        SmallFrame(g, if PagesFor(size) > g.pools[g.curr].nfree then 0 else g.curr, PagesFor(size), size);
      }
    }
  }

  /** A large block fresh from `pim_malloc` is terminated: by a clear flag, or by the end of the list. */
  lemma NewTerminated(h: Heap, size: nat)
    requires Shape(h) && size > HUGE_PAGE_SIZE && Malloc(h, size).Got?
    ensures var a := Malloc(h, size);
      && a.block.Large? && a.block.num >= 2 && a.block.pool + a.block.num == |a.heap.pools| &&
         Terminated(a.heap, a.block)
  {
    hide PoolShape, LargePools;
    InitShape(h);
  }

  /** Two pools that belong to no block agree when both are recorded. */
  lemma UncoveredAgree(p: Pool, q: Pool, k: nat, live: set<Block>)
    requires PoolShape(p) && PoolShape(q) && Records(p, k, live) && Records(q, k, live) && !InLarge(live, k)
    ensures p.bits == q.bits && p.nfree == q.nfree && p.large == q.large
  {
    hide InSmall, InLarge, CountFree;
    forall i | 0 <= i < NUM_PAGES ensures p.bits[i] == q.bits[i] {
    }
    assert p.bits == q.bits;
  }

  /** The state after `pim_malloc` and an immediate `pim_free` of its answer. */
  lemma FreedAtOnce(h: Heap, live: set<Block>, size: nat)
    requires Inv(h, live) && Malloc(h, size).Got?
    ensures var a := Malloc(h, size);
      && Shape(a.heap) && a.block.pool < |a.heap.pools| && Free(a.heap, Addr(a.heap, a.block)).Some?
      && var f := Free(a.heap, Addr(a.heap, a.block)).value;
      && Inv(f, live) && |f.pools| == |a.heap.pools|
      && forall k: nat {:trigger f.pools[k]} :: k < |f.pools| && !Touches(a.block, k) ==> f.pools[k] == a.heap.pools[k]
  {
    hide Malloc, Free, AllFit, AllRecord, AllApart, Addr, ClearBits, Terminated;
    var a := Malloc(h, size);
    MallocKeepsInv(h, live, size);
    assert live + {a.block} - {a.block} == live;
    if a.block.Small? {
      FreeSmallKeepsInv(a.heap, live + {a.block}, a.block);
    } else {
      LargeOnly(h, size);
      NewTerminated(h, size);
      FreeLargeKeepsInv(a.heap, live + {a.block}, a.block);
      FreeLargeExact(a.heap, live + {a.block}, a.block);
    }
  }

  lemma LargeOnly(h: Heap, size: nat)
    requires Shape(h) && Malloc(h, size).Got? && Malloc(h, size).block.Large?
    ensures size > HUGE_PAGE_SIZE
  {
    hide PoolShape, SmallFrom, LargeAlloc;
    InitShape(h);
    if size <= HUGE_PAGE_SIZE {
      var g := Init(h).value;
      SmallPlacement(g, if PagesFor(size) > g.pools[g.curr].nfree then 0 else g.curr, PagesFor(size), size);
    }
  }

  /**
   Round trip: from every sound state and for every size, `pim_malloc` and then `pim_free` of its answer
   give every earlier pool its bit vector, count and flag back, and leave every added pool completely free.
   */
  lemma RoundTrip(h: Heap, live: set<Block>, size: nat, k: nat)
    requires Inv(h, live) && Malloc(h, size).Got? && k < |Malloc(h, size).heap.pools|
    ensures var a := Malloc(h, size);
      && Shape(a.heap) && a.block.pool < |a.heap.pools| && Free(a.heap, Addr(a.heap, a.block)).Some?
      && var f := Free(a.heap, Addr(a.heap, a.block)).value;
      && |f.pools| == |a.heap.pools|
      && (if k < |h.pools| then
            f.pools[k].bits == h.pools[k].bits && f.pools[k].nfree == h.pools[k].nfree &&
              f.pools[k].large == h.pools[k].large
          else f.pools[k].nfree == NUM_PAGES && !f.pools[k].large && AllAt(f.pools[k].bits, 0, NUM_PAGES, '0'))
  {
    hide Malloc, Free, Addr, PoolShape, AllFit, AllApart, Records, AllAt;
    var a := Malloc(h, size);
    FreedAtOnce(h, live, size);
    MallocFrame(h, size);
    var f := Free(a.heap, Addr(a.heap, a.block)).value;
    if k >= |h.pools| {
      BeyondEnd(h, live, k);
      AddedPool(f, live, k);
    } else if Touches(a.block, k) {
      TouchedUncovered(h, live, size, k);
      UncoveredAgree(f.pools[k], h.pools[k], k, live);
    }
  }

  /** The new block takes no pool of a large block in use. */
  lemma TouchedUncovered(h: Heap, live: set<Block>, size: nat, k: nat)
    requires Inv(h, live) && Malloc(h, size).Got? && Touches(Malloc(h, size).block, k)
    ensures !InLarge(live, k)
  {
    hide Malloc, Shape, AllRecord;
    MallocKeepsInv(h, live, size);
    var a := Malloc(h, size);
    forall c | c in live && c.Large? ensures !(c.pool <= k < c.pool + c.num) {
      assert a.block in live + {a.block} && c in live + {a.block};
      assert Apart(a.block, c);
    }
  }

  lemma AddedPool(f: Heap, live: set<Block>, k: nat)
    requires Inv(f, live) && k < |f.pools| && !InLarge(live, k) && forall i: nat :: !InSmall(live, k, i)
    ensures f.pools[k].nfree == NUM_PAGES && !f.pools[k].large && AllAt(f.pools[k].bits, 0, NUM_PAGES, '0')
  {
    hide AllFit, AllApart, InLarge, InSmall;
    assert Records(f.pools[k], k, live);
    AllZero(f, k);
    CountSame(f.pools[k].bits, '0');
  }

  // ----- flags along a run

  /**
   A guarded call leaves the flags of every large block alone that stays in use. So a block that was made
   with a clear last flag can be freed at any time; only reused blocks depend on what follows them.
   */
  lemma FlagsKept(s: World, op: Op, s': World, c: Block, k: nat)
    requires Inv(s.heap, s.live) && Next(s, op, s') && Guarded(s, op)
    requires c in s.live && c in s'.live && c.Large? && c.pool <= k < c.pool + c.num
    ensures k < |s.heap.pools| <= |s'.heap.pools| && s'.heap.pools[k].large == s.heap.pools[k].large
  {
    hide Malloc, Free, Shape, AllRecord, Addr, PoolShape, Terminated, ClearBits;
    assert Fits(s.heap.pools, c);
    match op
    case Allocate(size) =>
      assert Shape(s.heap);
      MallocFrame(s.heap, size);
      MallocKeepsInv(s.heap, s.live, size);
      NewApart(s.heap, s.live, size, c);
    case Release(b) =>
      assert Apart(b, c);
      if b.Small? {
        FreeSmallKeepsInv(s.heap, s.live, b);
        SmallRecord(s.heap, s.live, b);
      } else {
        FreeLargeExact(s.heap, s.live, b);
      }
  }

  lemma NewApart(h: Heap, live: set<Block>, size: nat, c: Block)
    requires Inv(h, live) && Malloc(h, size).Got? && c in live
    ensures Apart(Malloc(h, size).block, c)
  {
    hide Malloc, Shape, AllRecord, AllFit, Apart;
    MallocKeepsInv(h, live, size);
    var b := Malloc(h, size).block;
    assert b in live + {b} && c in live + {b};
  }
}
