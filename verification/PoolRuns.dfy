/**
 Whole runs of the allocator: what holds in every state that `pim_malloc` and `pim_free` of live blocks can
 reach, under the one condition that a large block is freed only while its chain is terminated.
 */
module PoolRuns {
  import opened PoolBits
  import opened PoolHeap
  import opened PoolInv
  import opened PoolMalloc
  import opened PoolFree

  datatype Op = Allocate(size: nat) | Release(block: Block)

  datatype World = World(heap: Heap, live: set<Block>)

  /** One call that returns. */
  ghost predicate Next(s: World, op: Op, s': World) {
    Shape(s.heap) &&
    match op
    case Allocate(size) =>
      size <= MAX_REQUEST && Malloc(s.heap, size).Got?
      && s' == World(Malloc(s.heap, size).heap, s.live + {Malloc(s.heap, size).block})
    case Release(b) =>
      b in s.live && b.pool < |s.heap.pools|
      && Free(s.heap, Addr(s.heap, b)) == Some(s'.heap) && s'.live == s.live - {b}
  }

  /** A large block is freed only while its chain is terminated. */
  ghost predicate Guarded(s: World, op: Op) {
    op.Release? && op.block.Large? ==>
      op.block.num > 0 && op.block.pool + op.block.num <= |s.heap.pools| && Terminated(s.heap, op.block)
  }

  ghost predicate Run(base: int, limit: nat, ss: seq<World>, ops: seq<Op>) {
    && |ss| == |ops| + 1 && ss[0] == World(Heap(base, limit, [], -1, 0), {})
    && forall i {:trigger ops[i]} :: 0 <= i < |ops| ==> Next(ss[i], ops[i], ss[i + 1]) && Guarded(ss[i], ops[i])
  }

  /** From a sound state, a call leads to a sound state if and only if it is guarded. */
  lemma GuardExact(s: World, op: Op, s': World)
    requires Inv(s.heap, s.live) && Next(s, op, s')
    ensures Inv(s'.heap, s'.live) <==> Guarded(s, op)
  {
    hide AllFit, AllRecord, AllApart, Terminated, Malloc, Free, PoolShape;
    match op
    case Allocate(size) => MallocKeepsInv(s.heap, s.live, size);
    case Release(b) =>
      if b.Small? {
        FreeSmallKeepsInv(s.heap, s.live, b);
      } else {
        FreeLargeKeepsInv(s.heap, s.live, b);
      }
  }

  /** Every state of a guarded run is sound. */
  lemma {:induction false} RunSound(base: int, limit: nat, ss: seq<World>, ops: seq<Op>, i: nat)
    requires Run(base, limit, ss, ops) && i < |ss|
    ensures Inv(ss[i].heap, ss[i].live) && ss[i].heap.base == base && ss[i].heap.limit == limit
  {
    hide Inv, Next, Guarded;
    if i == 0 {
      InvEmpty(base, limit);
    } else {
      RunSound(base, limit, ss, ops, i - 1);
      assert Next(ss[i - 1], ops[i - 1], ss[i]) && Guarded(ss[i - 1], ops[i - 1]);
      GuardExact(ss[i - 1], ops[i - 1], ss[i]);
      SameWindow(ss[i - 1], ops[i - 1], ss[i]);
    }
  }

  lemma SameWindow(s: World, op: Op, s': World)
    requires Next(s, op, s')
    ensures s'.heap.base == s.heap.base && s'.heap.limit == s.heap.limit
  {
    hide NeedFree, PoolShape, PagesFor, PoolsFor, LargePools, Addr, PoolOf;
    match op
    case Allocate(size) =>
      InitShape(s.heap);
      if Init(s.heap).Some? {
        var g := Init(s.heap).value;
        if size <= HUGE_PAGE_SIZE {
          SmallWindow(g, if PagesFor(size) > g.pools[g.curr].nfree then 0 else g.curr, PagesFor(size), size);
        }
      }
    case Release(b) =>
  }

  lemma {:induction false} SmallWindow(h: Heap, k: nat, n: nat, size: nat)
    requires Shape(h) && 0 < n <= NUM_PAGES
    ensures var a := SmallFrom(h, k, n, size); a.Got? ==> a.heap.base == h.base && a.heap.limit == h.limit
    decreases |h.pools| - k
  {
    if k < |h.pools| {
      SmallWindow(h, k + 1, n, size);
    }
  }

  // ----- addresses

  /** The bytes of two blocks do not overlap. */
  predicate BytesApart(h: Heap, b: Block, c: Block)
    requires b.pool < |h.pools| && c.pool < |h.pools|
  {
    Addr(h, b) + Extent(b) <= Addr(h, c) || Addr(h, c) + Extent(c) <= Addr(h, b)
  }

  lemma BlockAddress(h: Heap, live: set<Block>, b: Block)
    requires Inv(h, live) && b in live
    ensures b.pool < |h.pools| && b.size <= Extent(b) && 0 < Extent(b)
    ensures Addr(h, b) == h.base + b.pool * HUGE_PAGE_SIZE + if b.Small? then b.page * PAGE_SIZE else 0
    ensures b.Small? ==> b.page * PAGE_SIZE + Extent(b) <= HUGE_PAGE_SIZE
    ensures b.Large? ==> (b.pool + b.num) * HUGE_PAGE_SIZE <= h.total
    ensures h.base <= Addr(h, b) && Addr(h, b) + Extent(b) <= h.base + h.total <= h.base + h.limit
  {
    hide PoolShape, AllRecord, AllApart;
    assert Fits(h.pools, b);
  }

  lemma BlocksApart(h: Heap, live: set<Block>, b: Block, c: Block)
    requires Inv(h, live) && b in live && c in live && b != c
    ensures b.pool < |h.pools| && c.pool < |h.pools| && BytesApart(h, b, c)
  {
    assert Apart(b, c);
    hide Inv, Addr;
    BlockAddress(h, live, b);
    BlockAddress(h, live, c);
  }

  /**
   Safety over whole runs: in every state of a guarded run the blocks in use are pairwise disjoint address
   ranges, each holds at least what was asked for, all lie in the mapped window, and the range test of
   `pim_free` finds the pool each one starts in.
   */
  lemma RunSafe(base: int, limit: nat, ss: seq<World>, ops: seq<Op>, i: nat)
    requires Run(base, limit, ss, ops) && i < |ss|
    ensures var h, live := ss[i].heap, ss[i].live;
      && (forall b :: b in live ==>
            && b.pool < |h.pools| && b.size <= Extent(b)
            && base <= Addr(h, b) && Addr(h, b) + Extent(b) <= base + limit
            && PoolOf(h, Addr(h, b), 0) == b.pool)
      && (forall b, c :: b in live && c in live && b != c ==> BytesApart(h, b, c))
  {
    hide Run, Inv, Addr, PoolOf, BytesApart;
    RunSound(base, limit, ss, ops, i);
    var h, live := ss[i].heap, ss[i].live;
    forall b | b in live
      ensures b.pool < |h.pools| && b.size <= Extent(b) && base <= Addr(h, b) && Addr(h, b) + Extent(b) <= base + limit
      ensures PoolOf(h, Addr(h, b), 0) == b.pool
    {
      BlockAddress(h, live, b);
      FindsBlock(h, live, b);
    }
    forall b, c | b in live && c in live && b != c ensures BytesApart(h, b, c) {
      BlocksApart(h, live, b, c);
    }
  }

  /** When a guarded run has freed everything, every pool is completely free again. */
  lemma RunDrained(base: int, limit: nat, ss: seq<World>, ops: seq<Op>, k: nat)
    requires Run(base, limit, ss, ops) && ss[|ops|].live == {} && k < |ss[|ops|].heap.pools|
    ensures var p := ss[|ops|].heap.pools[k]; p.nfree == NUM_PAGES && !p.large && AllAt(p.bits, 0, NUM_PAGES, '0')
  {
    RunSound(base, limit, ss, ops, |ops|);
    AllFreed(ss[|ops|].heap, k);
  }
}
