/**
 A run of eight calls, each on a block in use, that hands out memory twice. It frees a reused large block
 after a small block has been put into the pool behind it; every other call is guarded.
 */
module PoolOverlap {
  import opened PoolBits
  import opened PoolHeap
  import opened PoolInv
  import opened PoolFree
  import opened PoolRuns

  const MB2: nat := 0x200000
  const MB4: nat := 0x400000

  /** A fresh pool filled by one block, and the same pool emptied again. */
  function Full(start: int): Pool { Placed(FreshPool(start), 0, NUM_PAGES) }
  function Emptied(start: int): Pool { ClearBits(Full(start), 0, NUM_PAGES) }
  /** A fresh pool with one page in use, and what the free walk makes of it. */
  function OnePage(start: int): Pool { Placed(FreshPool(start), 0, 1) }

  lemma PoolFacts(start: int)
    ensures PoolShape(FreshPool(start)) && FreshPool(start).nfree == NUM_PAGES
    ensures PoolShape(Full(start)) && Full(start).nfree == 0 && !Full(start).large && Full(start).sizes[0] == NUM_PAGES
    ensures Full(start).start == Emptied(start).start == OnePage(start).start == start
    ensures PoolShape(Emptied(start)) && Emptied(start).nfree == NUM_PAGES && !Emptied(start).large
    ensures PoolShape(OnePage(start)) && OnePage(start).nfree == NUM_PAGES - 1 && !OnePage(start).large
  {
  }

  lemma PlaceFresh(h: Heap, k: nat, start: int, n: nat, size: nat)
    requires k < |h.pools| && h.pools[k] == FreshPool(start) && 0 < n <= NUM_PAGES
    ensures PoolShape(h.pools[k]) && Accepts(h.pools[k], n)
    ensures PlaceIn(h, k, n, size) == Got(h.(pools := h.pools[k := Placed(FreshPool(start), 0, n)], curr := k),
      Small(k, 0, n, size))
  {
    FreshFits(start, n);
  }

  /** With all pools full, a small request goes to a new pool. */
  lemma {:induction false} FullThenFresh(h: Heap, k: nat, n: nat, size: nat)
    requires Shape(h) && 0 < n <= NUM_PAGES && k <= |h.pools| && h.total + MB2 <= h.limit
    requires forall i {:trigger h.pools[i]} :: 0 <= i < |h.pools| ==> h.pools[i].nfree == 0
    ensures SmallFrom(h, k, n, size) ==
      Got(h.(pools := h.pools + [Placed(FreshPool(h.base + h.total), 0, n)], curr := |h.pools|, total := h.total + MB2),
          Small(|h.pools|, 0, n, size))
    decreases |h.pools| - k
  {
    if k < |h.pools| {
      FullThenFresh(h, k + 1, n, size);
    } else {
      hide FreshPool, PoolShape, Placed, PlaceIn;
      var pool := FreshPool(h.base + h.total);
      var g := h.(pools := h.pools + [pool], total := h.total + MB2);
      PlaceFresh(g, |h.pools|, h.base + h.total, n, size);
      assert g.pools[|h.pools| := Placed(pool, 0, n)] == h.pools + [Placed(pool, 0, n)];
    }
  }

  function H(base: int, limit: nat, pools: seq<Pool>, curr: int): Heap { Heap(base, limit, pools, curr, |pools| * MB2) }

  lemma FirstPool(base: int, limit: nat)
    requires limit >= 3 * MB2
    ensures var h := Heap(base, limit, [], -1, 0);
      Shape(h) && Malloc(h, MB2) == Got(H(base, limit, [Full(base)], 0), Small(0, 0, NUM_PAGES, MB2))
  {
    hide FreshPool, Placed;
    PoolFacts(base);
    var g := H(base, limit, [FreshPool(base)], 0);
    PlaceFresh(g, 0, base, NUM_PAGES, MB2);
    assert g.pools[0 := Full(base)] == [Full(base)];
  }

  lemma SecondPool(base: int, limit: nat)
    requires limit >= 3 * MB2
    ensures var h := H(base, limit, [Full(base)], 0);
      Shape(h) && Malloc(h, MB2) == Got(H(base, limit, [Full(base), Full(base + MB2)], 1), Small(1, 0, NUM_PAGES, MB2))
  {
    hide FreshPool, Placed, Full, SmallFrom;
    PoolFacts(base);
    var h := H(base, limit, [Full(base)], 0);
    FullThenFresh(h, 0, NUM_PAGES, MB2);
    FullIs(base + MB2);
  }

  lemma FullIs(start: int)
    ensures Full(start) == Placed(FreshPool(start), 0, NUM_PAGES)
  {
  }

  /** Freeing a full pool's one block empties the pool. */
  lemma FreeFull(h: Heap, k: nat, start: int)
    requires Shape(h) && k < |h.pools| && h.pools[k] == Full(start) && start == h.base + k * MB2
    ensures Free(h, start) == Some(h.(pools := h.pools[k := Emptied(start)]))
  {
    hide FreshPool, Placed, ClearBits, PoolShape, Full, Emptied;
    PoolFacts(start);
    EmptiedIs(start);
    PoolOfIs(h, start, 0, k);
  }

  lemma FreeFirst(base: int, limit: nat)
    requires limit >= 3 * MB2
    ensures var h := H(base, limit, [Full(base), Full(base + MB2)], 1);
      Shape(h) && Free(h, base) == Some(H(base, limit, [Emptied(base), Full(base + MB2)], 1))
  {
    hide Full, Emptied, Free;
    PoolFacts(base);
    PoolFacts(base + MB2);
    var h := H(base, limit, [Full(base), Full(base + MB2)], 1);
    FreeFull(h, 0, base);
    assert h.pools[0 := Emptied(base)] == [Emptied(base), Full(base + MB2)];
  }

  lemma FreeSecond(base: int, limit: nat)
    requires limit >= 3 * MB2
    ensures var h := H(base, limit, [Emptied(base), Full(base + MB2)], 1);
      Shape(h) && Free(h, base + MB2) == Some(H(base, limit, [Emptied(base), Emptied(base + MB2)], 1))
  {
    hide Full, Emptied, Free;
    PoolFacts(base);
    PoolFacts(base + MB2);
    var h := H(base, limit, [Emptied(base), Full(base + MB2)], 1);
    FreeFull(h, 1, base + MB2);
    assert h.pools[1 := Emptied(base + MB2)] == [Emptied(base), Emptied(base + MB2)];
  }

  lemma EmptiedIs(start: int)
    ensures Emptied(start).start == start && |Full(start).bits| == NUM_PAGES
    ensures Emptied(start) == ClearBits(Full(start), 0, NUM_PAGES)
  {
  }

  function Reused(base: int, limit: nat): seq<Pool> { [Retaken(Emptied(base)), Retaken(Emptied(base + MB2))] }

  lemma ReuseBoth(base: int, limit: nat)
    requires limit >= 3 * MB2
    ensures var h := H(base, limit, [Emptied(base), Emptied(base + MB2)], 1);
      Shape(h) && Malloc(h, MB4) == Got(H(base, limit, Reused(base, limit), 0), Large(0, 2, MB4))
  {
    hide Emptied;
    PoolFacts(base);
    PoolFacts(base + MB2);
  }

  lemma SmallBehind(base: int, limit: nat)
    requires limit >= 3 * MB2
    ensures var h := H(base, limit, Reused(base, limit), 0);
      Shape(h) && Malloc(h, PAGE_SIZE) ==
        Got(H(base, limit, Reused(base, limit) + [OnePage(base + MB4)], 2), Small(2, 0, 1, PAGE_SIZE))
  {
    hide Emptied, SmallFrom, Placed, FreshPool;
    PoolFacts(base);
    PoolFacts(base + MB2);
    FullThenFresh(H(base, limit, Reused(base, limit), 0), 0, 1, PAGE_SIZE);
  }

  function Walked(base: int): seq<Pool> { [Emptied(base), Emptied(base + MB2), Released(OnePage(base + MB4))] }

  lemma EmptyAgain(start: int)
    ensures Released(Retaken(Emptied(start))) == Emptied(start)
  {
    PoolFacts(start);
  }

  lemma FreeReused(base: int, limit: nat)
    requires limit >= 3 * MB2
    ensures var h := H(base, limit, Reused(base, limit) + [OnePage(base + MB4)], 2);
      Shape(h) && Free(h, base) == Some(H(base, limit, Walked(base), 2))
  {
    hide Emptied, OnePage;
    PoolFacts(base);
    PoolFacts(base + MB2);
    PoolFacts(base + MB4);
    EmptyAgain(base);
    EmptyAgain(base + MB2);
    var pools := Reused(base, limit) + [OnePage(base + MB4)];
    var next := pools[0 := Emptied(base)];
    assert NeedFree(next[1 := Emptied(base + MB2)], 2) == Walked(base);
    assert NeedFree(next, 1) == Walked(base);
  }

  lemma ReuseOverlapping(base: int, limit: nat)
    requires limit >= 3 * MB2
    ensures var h := H(base, limit, Walked(base), 2);
      Shape(h) && Malloc(h, MB4).Got? && Malloc(h, MB4).block == Large(1, 2, MB4)
      && |Malloc(h, MB4).heap.pools| == 3
      && Addr(Malloc(h, MB4).heap, Large(1, 2, MB4)) == base + MB2
      && Addr(Malloc(h, MB4).heap, Small(2, 0, 1, PAGE_SIZE)) == base + MB4
  {
    hide Emptied, OnePage;
    PoolFacts(base);
    PoolFacts(base + MB2);
    PoolFacts(base + MB4);
  }

  /** Every step of the run but the seventh is guarded. */
  ghost predicate UnguardedRun(base: int, limit: nat, ss: seq<World>, ops: seq<Op>) {
    && |ops| == 8 && |ss| == 9 && ss[0] == World(Heap(base, limit, [], -1, 0), {})
    && (forall i {:trigger ops[i]} :: 0 <= i < 8 ==> Next(ss[i], ops[i], ss[i + 1]))
    && (forall i {:trigger ops[i]} :: 0 <= i < 8 && i != 6 ==> Guarded(ss[i], ops[i]))
  }

  /**
   With room for three pools there is a run of eight calls, unguarded in one of them, after which two
   blocks in use overlap: a 4 MB block covers the page of a 4 KB block.
   */
  lemma UnguardedOverlap(base: int, limit: nat) returns (ss: seq<World>, ops: seq<Op>)
    requires limit >= 3 * MB2
    ensures UnguardedRun(base, limit, ss, ops) && !Guarded(ss[6], ops[6])
    ensures var b, c := Large(1, 2, MB4), Small(2, 0, 1, PAGE_SIZE);
      && b in ss[8].live && c in ss[8].live && b.pool < |ss[8].heap.pools| && c.pool < |ss[8].heap.pools|
      && !BytesApart(ss[8].heap, b, c)
  {
    hide Malloc, Free, Shape, Full, Emptied, OnePage, Reused, Walked;
    FirstPool(base, limit);
    SecondPool(base, limit);
    FreeFirst(base, limit);
    FreeSecond(base, limit);
    ReuseBoth(base, limit);
    SmallBehind(base, limit);
    FreeReused(base, limit);
    ReuseOverlapping(base, limit);
    Starts(base, limit);
    var x, y, z, w := Small(0, 0, NUM_PAGES, MB2), Small(1, 0, NUM_PAGES, MB2), Large(0, 2, MB4),
      Small(2, 0, 1, PAGE_SIZE);
    ops := [Allocate(MB2), Allocate(MB2), Release(x), Release(y), Allocate(MB4), Allocate(PAGE_SIZE), Release(z),
      Allocate(MB4)];
    ss := [
      World(Heap(base, limit, [], -1, 0), {}),
      World(H(base, limit, [Full(base)], 0), {x}),
      World(H(base, limit, [Full(base), Full(base + MB2)], 1), {x, y}),
      World(H(base, limit, [Emptied(base), Full(base + MB2)], 1), {y}),
      World(H(base, limit, [Emptied(base), Emptied(base + MB2)], 1), {}),
      World(H(base, limit, Reused(base, limit), 0), {z}),
      World(H(base, limit, Reused(base, limit) + [OnePage(base + MB4)], 2), {z, w}),
      World(H(base, limit, Walked(base), 2), {w}),
      World(Malloc(H(base, limit, Walked(base), 2), MB4).heap, {w, Large(1, 2, MB4)})
    ];
    assert Next(ss[0], ops[0], ss[1]);
    assert Next(ss[1], ops[1], ss[2]);
    assert Next(ss[2], ops[2], ss[3]);
    assert Next(ss[3], ops[3], ss[4]);
    assert Next(ss[4], ops[4], ss[5]);
    assert Next(ss[5], ops[5], ss[6]);
    assert Next(ss[6], ops[6], ss[7]);
    assert Next(ss[7], ops[7], ss[8]);
  }

  lemma Starts(base: int, limit: nat)
    ensures Full(base).start == Emptied(base).start == base && Full(base + MB2).start == base + MB2
    ensures |Reused(base, limit)| == 2 && Reused(base, limit)[0].start == base && Reused(base, limit)[1].large
    ensures OnePage(base + MB4).nfree != NUM_PAGES
  {
    PoolFacts(base);
    PoolFacts(base + MB2);
    PoolFacts(base + MB4);
  }
}
